/**
  The concurrent walk over a tool's help tree. Any number of workers share a queue of
  command paths, a set of visited keys and a count of busy workers, all under one
  mutex; probing and saving a page happen outside it. The walk is a transition system
  over the points at which a worker holds or releases the mutex.
*/
module HelpWalk {
  import opened Base

  type Argv = seq<string>

  /** One entity found on a help page. */
  datatype Entity = Entity(isFlag: bool, name: string)

  /** The tool, the depth limit (none when not positive), and what probing a path would find. */
  datatype Config = Config(tool: string, depth: int, probe: Argv -> seq<Entity>)

  const NUL := '\0'

  // ---- Which entities are followed ----

  predicate SafeChar(c: char) {
    || 'a' <= c <= 'z' || 'A' <= c <= 'Z' || '0' <= c <= '9'
    || c in "-_./+=:@~"
  }

  predicate SafeArg(w: string) {
    w != "" && w != "-" && w != "--" && forall i :: 0 <= i < |w| ==> SafeChar(w[i])
  }

  predicate EqualFoldHelp(w: string) {
    |w| == 4 && w[0] in "hH" && w[1] in "eE" && w[2] in "lL" && w[3] in "pP"
  }

  predicate Wanted(e: Entity) {
    !e.isFlag && !("-" <= e.name) && !EqualFoldHelp(e.name) && SafeArg(e.name)
  }

  predicate MayDescend(cfg: Config, argv: Argv) {
    cfg.depth <= 0 || |argv| < cfg.depth
  }

  /** `name` is a subcommand shown on the page of `argv` and within the depth limit. */
  ghost predicate IsChild(cfg: Config, argv: Argv, name: string) {
    MayDescend(cfg, argv) && exists e :: e in cfg.probe(argv) && Wanted(e) && e.name == name
  }

  /** Reference definition: the command paths the walk is meant to find. */
  ghost predicate Reachable(cfg: Config, argv: Argv) {
    && |argv| >= 1 && argv[0] == cfg.tool
    && forall i :: 1 <= i < |argv| ==> IsChild(cfg, argv[..i], argv[i])
  }

  // ---- The same, in plain terms ----

  function LowerChar(c: char): char {
    if 'A' <= c <= 'Z' then (c as int + 32) as char else c
  }

  function Lower(w: string): string {
    if w == "" then "" else [LowerChar(w[0])] + Lower(w[1..])
  }

  /** A subcommand's name: not empty, no leading dash, not "help" in any case, and only safe characters. */
  ghost predicate GoodName(name: string) {
    && name != "" && name[0] != '-' && Lower(name) != "help"
    && forall i :: 0 <= i < |name| ==>
                     || 'a' <= name[i] <= 'z' || 'A' <= name[i] <= 'Z' || '0' <= name[i] <= '9'
                     || name[i] == '-' || name[i] == '_' || name[i] == '.' || name[i] == '/' || name[i] == '+'
                     || name[i] == '=' || name[i] == ':' || name[i] == '@' || name[i] == '~'
  }

  /**
    The path starts with the tool, every further word is a subcommand's name that the
    page before it shows, and it has no more words than the depth limit allows.
  */
  ghost predicate OnTree(cfg: Config, argv: Argv) {
    && argv != [] && argv[0] == cfg.tool
    && (cfg.depth <= 0 || |argv| <= cfg.depth)
    && forall i :: 1 <= i < |argv| ==>
                     GoodName(argv[i]) && exists e :: e in cfg.probe(argv[..i]) && !e.isFlag && e.name == argv[i]
  }

  lemma {:induction false} LowerEach(w: string)
    ensures |Lower(w)| == |w| && forall i :: 0 <= i < |w| ==> Lower(w)[i] == LowerChar(w[i])
    decreases |w|
  {
    if w != "" { LowerEach(w[1..]); }
  }

  lemma HelpMeans(w: string)
    ensures EqualFoldHelp(w) <==> Lower(w) == "help"
  {
    LowerEach(w);
    if |w| == 4 {
      assert Lower(w) == [LowerChar(w[0]), LowerChar(w[1]), LowerChar(w[2]), LowerChar(w[3])];
    }
  }

  lemma WantedMeans(e: Entity)
    ensures Wanted(e) <==> !e.isFlag && GoodName(e.name)
  {
    HelpMeans(e.name);
    assert "-" <= e.name <==> e.name != "" && e.name[0] == '-';
  }

  lemma ReachableMeans(cfg: Config, argv: Argv)
    ensures Reachable(cfg, argv) <==> OnTree(cfg, argv)
  {
    forall e { WantedMeans(e); }
    if Reachable(cfg, argv) && |argv| > 1 {
      assert IsChild(cfg, argv[..|argv| - 1], argv[|argv| - 1]);
    }
    forall i | 1 <= i < |argv| && OnTree(cfg, argv) ensures IsChild(cfg, argv[..i], argv[i]) {
      assert |argv[..i]| == i;
    }
    forall i | 1 <= i < |argv| && Reachable(cfg, argv)
      ensures GoodName(argv[i]) && exists e :: e in cfg.probe(argv[..i]) && !e.isFlag && e.name == argv[i]
    {
      assert IsChild(cfg, argv[..i], argv[i]);
    }
  }

  // ---- Keys ----

  /** The visited key: the path joined with NUL bytes. */
  function Key(argv: Argv): string
  {
    if argv == [] then "" else if |argv| == 1 then argv[0] else Key(argv[..|argv| - 1]) + [NUL] + argv[|argv| - 1]
  }

  lemma KeyMeans(argv: Argv, w: string)
    ensures Key([w]) == w
    ensures argv != [] ==> Key(argv + [w]) == Key(argv) + "\0" + w
  {
    assert (argv + [w])[..|argv|] == argv;
  }

  predicate NulFree(w: string) {
    NUL !in w
  }

  lemma {:induction false} KeyLonger(argv: Argv)
    requires argv != []
    ensures |Key(argv)| >= |argv[0]| + |argv| - 1
    decreases |argv|
  {
    if |argv| > 1 {
      KeyLonger(argv[..|argv| - 1]);
    }
  }

  ghost predicate Plain(tool: string, argv: Argv) {
    argv != [] && argv[0] == tool && forall i :: 1 <= i < |argv| ==> NulFree(argv[i])
  }

  /** Distinct paths of one tool have distinct keys. */
  lemma {:induction false} KeyInjective(tool: string, a: Argv, b: Argv)
    requires Plain(tool, a) && Plain(tool, b) && Key(a) == Key(b)
    ensures a == b
    decreases |a|
  {
    if |a| == 1 {
      KeyLonger(b);
      assert a == b;
    } else if |b| == 1 {
      KeyLonger(a);
      assert false;
    } else {
      var a', b' := a[..|a| - 1], b[..|b| - 1];
      SplitAtLast(Key(a'), a[|a| - 1], Key(b'), b[|b| - 1], NUL);
      KeyInjective(tool, a', b');
      assert a == a' + [a[|a| - 1]] && b == b' + [b[|b| - 1]];
    }
  }

  lemma ReachablePlain(cfg: Config, argv: Argv)
    requires Reachable(cfg, argv)
    ensures Plain(cfg.tool, argv)
  {
    forall i | 1 <= i < |argv| ensures NulFree(argv[i]) {
      assert IsChild(cfg, argv[..i], argv[i]);
      var e :| e in cfg.probe(argv[..i]) && Wanted(e) && e.name == argv[i];
    }
  }

  lemma ReachableChild(cfg: Config, argv: Argv, name: string)
    requires Reachable(cfg, argv) && IsChild(cfg, argv, name)
    ensures Reachable(cfg, argv + [name])
  {
    var child := argv + [name];
    forall i | 1 <= i < |child| ensures IsChild(cfg, child[..i], child[i]) {
      if i < |argv| {
        assert child[..i] == argv[..i];
      } else {
        assert child[..i] == argv;
      }
    }
  }

  // ---- Expanding one page ----

  datatype Frontier = Frontier(pending: seq<Argv>, visited: set<string>)

  /** The loop over a page's entities: children not seen before join the queue. */
  function AddChildren(f: Frontier, argv: Argv, ents: seq<Entity>): Frontier
  {
    if ents == [] then f
    else
      var g := AddChildren(f, argv, ents[..|ents| - 1]);
      var e := ents[|ents| - 1];
      if !Wanted(e) then g
      else
        var child := argv + [e.name];
        if Key(child) in g.visited then g
        else Frontier(g.pending + [child], g.visited + {Key(child)})
  }

  ghost predicate Distinct(s: seq<Argv>) {
    forall i, j :: 0 <= i < j < |s| ==> s[i] != s[j]
  }

  function KeysOf(s: seq<Argv>): set<string> {
    if s == [] then {} else KeysOf(s[..|s| - 1]) + {Key(s[|s| - 1])}
  }

  /** `a` extends `argv` by a subcommand shown among `ents`. */
  ghost predicate ChildAmong(argv: Argv, ents: seq<Entity>, a: Argv) {
    exists e :: e in ents && Wanted(e) && a == argv + [e.name]
  }

  /** `added` are the children found: each shown on the page, none visited before, and now all the page's are visited. */
  ghost predicate Found(f: Frontier, argv: Argv, ents: seq<Entity>, g: Frontier, added: seq<Argv>) {
    && g.pending == f.pending + added
    && g.visited == f.visited + KeysOf(added)
    && (forall i :: 0 <= i < |added| ==> Key(added[i]) in g.visited && Key(added[i]) !in f.visited)
    && (forall i :: 0 <= i < |added| ==> ChildAmong(argv, ents, added[i]))
    && (forall e :: e in ents && Wanted(e) ==> Key(argv + [e.name]) in g.visited)
    && Distinct(added)
  }

  lemma ChildAmongMore(argv: Argv, ents: seq<Entity>, e: Entity, a: Argv)
    requires ChildAmong(argv, ents, a)
    ensures ChildAmong(argv, ents + [e], a)
  {
    var x :| x in ents && Wanted(x) && a == argv + [x.name];
    assert x in ents + [e];
  }

  lemma FoundSkips(f: Frontier, argv: Argv, ents: seq<Entity>, g: Frontier, added: seq<Argv>, e: Entity)
    requires Found(f, argv, ents, g, added)
    requires Wanted(e) ==> Key(argv + [e.name]) in g.visited
    ensures Found(f, argv, ents + [e], g, added)
  {
    forall i | 0 <= i < |added| ensures ChildAmong(argv, ents + [e], added[i]) {
      ChildAmongMore(argv, ents, e, added[i]);
    }
  }

  lemma FoundAdds(f: Frontier, argv: Argv, ents: seq<Entity>, g: Frontier, added: seq<Argv>, e: Entity)
    requires Found(f, argv, ents, g, added) && Wanted(e) && Key(argv + [e.name]) !in g.visited
    ensures var child := argv + [e.name];
            Found(f, argv, ents + [e], Frontier(g.pending + [child], g.visited + {Key(child)}), added + [child])
  {
    var child := argv + [e.name];
    assert e in ents + [e];
    forall i | 0 <= i < |added| ensures ChildAmong(argv, ents + [e], added[i]) {
      ChildAmongMore(argv, ents, e, added[i]);
    }
    assert ChildAmong(argv, ents + [e], child);
  }

  lemma {:induction false} AddChildrenFinds(f: Frontier, argv: Argv, ents: seq<Entity>) returns (added: seq<Argv>)
    ensures Found(f, argv, ents, AddChildren(f, argv, ents), added)
    decreases |ents|
  {
    if ents == [] {
      added := [];
    } else {
      var init, e := ents[..|ents| - 1], ents[|ents| - 1];
      added := AddChildrenFinds(f, argv, init);
      var g := AddChildren(f, argv, init);
      assert ents == init + [e];
      if Wanted(e) && Key(argv + [e.name]) !in g.visited {
        FoundAdds(f, argv, init, g, added, e);
        added := added + [argv + [e.name]];
      } else {
        FoundSkips(f, argv, init, g, added, e);
      }
    }
  }

  // ---- The workers ----

  /** A worker at the top of its loop, probing, between saving and taking the mutex again, or gone. */
  datatype Worker = Ready | Probing(argv: Argv) | Saved(argv: Argv) | Exited

  datatype State = State(pending: seq<Argv>, visited: set<string>, workers: seq<Worker>, active: int, pages: int,
                         saved: seq<Argv>, finished: seq<Argv>, cancelled: bool)

  datatype Step = Take(w: nat) | Save(w: nat) | Expand(w: nat) | Exit(w: nat) | Cancel

  function Initial(cfg: Config, jobs: nat): State {
    State([[cfg.tool]], {Key([cfg.tool])}, seq(jobs, _ => Ready), 0, 0, [], [], false)
  }

  predicate Enabled(s: State, step: Step) {
    match step
    case Take(w) => w < |s.workers| && s.workers[w].Ready? && !s.cancelled && s.pending != []
    case Save(w) => w < |s.workers| && s.workers[w].Probing?
    case Expand(w) => w < |s.workers| && s.workers[w].Saved?
    case Exit(w) => w < |s.workers| && s.workers[w].Ready? && (s.cancelled || (s.pending == [] && s.active == 0))
    case Cancel => true
  }

  /** A worker waits on the condition variable. */
  predicate Blocked(s: State, w: nat) {
    w < |s.workers| && s.workers[w].Ready? && !s.cancelled && s.pending == [] && s.active > 0
  }

  function Next(cfg: Config, s: State, step: Step): State
    requires Enabled(s, step)
  {
    match step
    case Take(w) =>
      s.(pending := s.pending[1..], active := s.active + 1, workers := s.workers[w := Probing(s.pending[0])])
    case Save(w) =>
      s.(saved := s.saved + [s.workers[w].argv], workers := s.workers[w := Saved(s.workers[w].argv)])
    case Expand(w) =>
      var argv := s.workers[w].argv;
      var f := Frontier(s.pending, s.visited);
      var g := if !s.cancelled && MayDescend(cfg, argv) then AddChildren(f, argv, cfg.probe(argv)) else f;
      s.(pending := g.pending, visited := g.visited, active := s.active - 1, pages := s.pages + 1,
      finished := s.finished + [argv], workers := s.workers[w := Ready])
    case Exit(w) =>
      s.(workers := s.workers[w := Exited])
    case Cancel =>
      s.(cancelled := true)
  }

  /** What the workers share; each method is one critical section. */
  class Shared {
    var pending: seq<Argv>
    var visited: set<string>
    var active: int
    var pages: int

    constructor (cfg: Config)
      ensures pending == Initial(cfg, 0).pending && visited == Initial(cfg, 0).visited && active == 0 && pages == 0
    {
      pending, visited, active, pages := [[cfg.tool]], {Key([cfg.tool])}, 0, 0;
    }

    /** The state as the protocol has it, the rest of it being `s`. */
    ghost predicate Shows(s: State)
      reads this
    {
      pending == s.pending && visited == s.visited && active == s.active && pages == s.pages
    }

    /** The first half of a round: take a path, or leave, or wait. */
    method Begin(ghost cfg: Config, cancelled: bool, ghost s: State, ghost w: nat) returns (argv: Option<Argv>, leave: bool)
      requires Shows(s) && w < |s.workers| && s.workers[w].Ready? && cancelled == s.cancelled && s.active >= 0
      modifies this
      ensures argv.Some? ==> Enabled(s, Take(w)) && Shows(Next(cfg, s, Take(w))) && argv.value == s.pending[0]
      ensures leave ==> argv.None? && Enabled(s, Exit(w)) && Shows(s)
      ensures argv.None? && !leave ==> Blocked(s, w) && !cancelled && s.pending == [] && s.active > 0 && Shows(s)
    {
      if cancelled || (pending == [] && active == 0) {
        return None, true;
      }
      if pending == [] {
        return None, false;
      }
      argv, leave := Some(pending[0]), false;
      pending, active := pending[1..], active + 1;
    }

    /** The second half: the children of a probed path join the queue. */
    method Finish(cfg: Config, argv: Argv, ents: seq<Entity>, cancelled: bool, ghost s: State, ghost w: nat)
      requires Shows(s) && w < |s.workers| && s.workers[w] == Saved(argv) && ents == cfg.probe(argv) && cancelled == s.cancelled
      modifies this
      ensures Shows(Next(cfg, s, Expand(w)))
    {
      if !cancelled && MayDescend(cfg, argv) {
        ghost var f := Frontier(pending, visited);
        for i := 0 to |ents|
          invariant Frontier(pending, visited) == AddChildren(f, argv, ents[..i])
          invariant active == s.active && pages == s.pages
        {
          assert ents[..i + 1][..i] == ents[..i];
          var e := ents[i];
          if Wanted(e) {
            var child := argv + [e.name];
            if Key(child) !in visited {
              visited := visited + {Key(child)};
              pending := pending + [child];
            }
          }
        }
        assert ents[..|ents|] == ents;
      }
      active, pages := active - 1, pages + 1;
    }
  }

  /** A schedule: every step in it was possible when it was taken. */
  ghost predicate IsRun(cfg: Config, jobs: nat, states: seq<State>, steps: seq<Step>) {
    && |states| == |steps| + 1
    && states[0] == Initial(cfg, jobs)
    && forall i :: 0 <= i < |steps| ==> Enabled(states[i], steps[i]) && states[i + 1] == Next(cfg, states[i], steps[i])
  }

  // ---- Where a path can be ----

  /** How often `a` occurs in a list. */
  function Times(s: seq<Argv>, a: Argv): nat {
    if s == [] then 0 else Times(s[..|s| - 1], a) + if s[|s| - 1] == a then 1 else 0
  }

  function HeldBy(w: Worker, a: Argv): nat {
    if (w.Probing? || w.Saved?) && w.argv == a then 1 else 0
  }

  function SavedBy(w: Worker, a: Argv): nat {
    if w.Saved? && w.argv == a then 1 else 0
  }

  /** How many workers hold `a`. */
  function Held(ws: seq<Worker>, a: Argv): nat {
    if ws == [] then 0 else Held(ws[..|ws| - 1], a) + HeldBy(ws[|ws| - 1], a)
  }

  /** How many of them have already saved it. */
  function HeldSaved(ws: seq<Worker>, a: Argv): nat {
    if ws == [] then 0 else HeldSaved(ws[..|ws| - 1], a) + SavedBy(ws[|ws| - 1], a)
  }

  function IsBusy(w: Worker): nat {
    if w.Probing? || w.Saved? then 1 else 0
  }

  function BusyCount(ws: seq<Worker>): nat {
    if ws == [] then 0 else BusyCount(ws[..|ws| - 1]) + IsBusy(ws[|ws| - 1])
  }

  /** In how many places `a` is: waiting, in a worker's hands, finished. */
  function Places(s: State, a: Argv): nat {
    Times(s.pending, a) + Held(s.workers, a) + Times(s.finished, a)
  }

  lemma {:induction false} TimesAppend(s: seq<Argv>, t: seq<Argv>, a: Argv)
    ensures Times(s + t, a) == Times(s, a) + Times(t, a)
    decreases |t|
  {
    if t == [] {
      assert s + t == s;
    } else {
      var init := t[..|t| - 1];
      assert s + t == (s + init) + [t[|t| - 1]];
      TimesAppend(s, init, a);
    }
  }

  lemma TimesCons(s: seq<Argv>, a: Argv)
    requires s != []
    ensures Times(s, a) == (if s[0] == a then 1 else 0) + Times(s[1..], a)
  {
    assert s == [s[0]] + s[1..];
    TimesAppend([s[0]], s[1..], a);
    assert [] + [s[0]] == [s[0]];
  }

  lemma {:induction false} TimesIn(s: seq<Argv>, a: Argv)
    ensures Times(s, a) > 0 <==> a in s
    decreases |s|
  {
    if s != [] {
      TimesIn(s[..|s| - 1], a);
      assert s == s[..|s| - 1] + [s[|s| - 1]];
    }
  }

  lemma {:induction false} TimesDistinct(s: seq<Argv>, a: Argv)
    requires Distinct(s)
    ensures Times(s, a) <= 1
    decreases |s|
  {
    if s != [] {
      var init := s[..|s| - 1];
      TimesDistinct(init, a);
      TimesIn(init, a);
    }
  }

  lemma {:induction false} HeldUpdate(ws: seq<Worker>, w: nat, x: Worker, a: Argv)
    requires w < |ws|
    ensures Held(ws[w := x], a) == Held(ws, a) - HeldBy(ws[w], a) + HeldBy(x, a)
    ensures HeldSaved(ws[w := x], a) == HeldSaved(ws, a) - SavedBy(ws[w], a) + SavedBy(x, a)
    decreases |ws|
  {
    var n := |ws| - 1;
    if w == n {
      assert ws[w := x][..n] == ws[..n];
    } else {
      assert ws[w := x][..n] == ws[..n][w := x];
      HeldUpdate(ws[..n], w, x, a);
    }
  }

  lemma {:induction false} BusyUpdate(ws: seq<Worker>, w: nat, x: Worker)
    requires w < |ws|
    ensures BusyCount(ws[w := x]) == BusyCount(ws) - IsBusy(ws[w]) + IsBusy(x)
    ensures BusyCount(ws) >= IsBusy(ws[w])
    decreases |ws|
  {
    var n := |ws| - 1;
    if w == n {
      assert ws[w := x][..n] == ws[..n];
    } else {
      assert ws[w := x][..n] == ws[..n][w := x];
      BusyUpdate(ws[..n], w, x);
    }
  }

  lemma {:induction false} NobodyBusy(ws: seq<Worker>, a: Argv)
    requires forall i :: 0 <= i < |ws| ==> ws[i].Ready? || ws[i].Exited?
    ensures Held(ws, a) == HeldSaved(ws, a) == 0 && BusyCount(ws) == 0
    decreases |ws|
  {
    if ws != [] {
      NobodyBusy(ws[..|ws| - 1], a);
    }
  }

  // ---- What every step keeps ----

  /** Each known path is in exactly one place, is reachable and is marked visited; nothing else is marked. */
  ghost predicate Accounted(cfg: Config, s: State) {
    && (forall a :: Places(s, a) > 0 ==> Places(s, a) == 1 && Reachable(cfg, a) && Key(a) in s.visited)
    && (forall k :: k in s.visited ==> exists a :: Places(s, a) > 0 && Key(a) == k)
    && Places(s, [cfg.tool]) > 0
  }

  /** The counters are right, and the pages saved are the finished ones and those still in a worker's hands. */
  ghost predicate Counted(s: State) {
    && s.active == BusyCount(s.workers)
    && s.pages == |s.finished|
    && forall a :: Times(s.saved, a) == Times(s.finished, a) + HeldSaved(s.workers, a)
  }

  /** Unless cancelled, the children of every finished path are known. */
  ghost predicate Closed(cfg: Config, s: State) {
    !s.cancelled ==>
      forall a, name :: a in s.finished && IsChild(cfg, a, name) ==> Places(s, a + [name]) > 0
  }

  /** A worker leaves early only on cancellation. */
  ghost predicate Quiescent(s: State) {
    !s.cancelled && (exists i :: 0 <= i < |s.workers| && s.workers[i].Exited?) ==> s.pending == [] && s.active == 0
  }

  ghost predicate Inv(cfg: Config, s: State) {
    Accounted(cfg, s) && Counted(s) && Closed(cfg, s) && Quiescent(s)
  }

  lemma InitialInv(cfg: Config, jobs: nat)
    ensures Inv(cfg, Initial(cfg, jobs))
  {
    var s := Initial(cfg, jobs);
    var root := [cfg.tool];
    assert s.pending == [] + [root];
    forall a ensures Places(s, a) == (if a == root then 1 else 0) && HeldSaved(s.workers, a) == 0 {
      NobodyBusy(s.workers, a);
    }
    NobodyBusy(s.workers, root);
    assert Reachable(cfg, root);
    assert Places(s, root) > 0;
  }

  lemma SamePlaces(cfg: Config, s: State, t: State)
    requires Accounted(cfg, s) && Closed(cfg, s)
    requires forall a :: Places(t, a) == Places(s, a)
    requires t.visited == s.visited && t.finished == s.finished && t.cancelled == s.cancelled
    ensures Accounted(cfg, t) && Closed(cfg, t)
  {
    forall k | k in t.visited ensures exists a :: Places(t, a) > 0 && Key(a) == k {
      var a :| Places(s, a) > 0 && Key(a) == k;
      assert Places(t, a) > 0;
    }
  }

  lemma TakeKeeps(cfg: Config, s: State, w: nat)
    requires Inv(cfg, s) && Enabled(s, Take(w))
    ensures Inv(cfg, Next(cfg, s, Take(w)))
  {
    var s' := Next(cfg, s, Take(w));
    var x := Probing(s.pending[0]);
    forall a ensures Places(s', a) == Places(s, a) && HeldSaved(s'.workers, a) == HeldSaved(s.workers, a) {
      TimesCons(s.pending, a);
      HeldUpdate(s.workers, w, x, a);
    }
    SamePlaces(cfg, s, s');
    BusyUpdate(s.workers, w, x);
    assert !exists i :: 0 <= i < |s.workers| && s.workers[i].Exited?;
  }

  lemma SaveKeeps(cfg: Config, s: State, w: nat)
    requires Inv(cfg, s) && Enabled(s, Save(w))
    ensures Inv(cfg, Next(cfg, s, Save(w)))
  {
    var s' := Next(cfg, s, Save(w));
    var argv := s.workers[w].argv;
    forall a ensures Places(s', a) == Places(s, a)
                     && Times(s'.saved, a) == Times(s'.finished, a) + HeldSaved(s'.workers, a) {
      HeldUpdate(s.workers, w, Saved(argv), a);
    }
    SamePlaces(cfg, s, s');
    BusyUpdate(s.workers, w, Saved(argv));
    assert forall i :: 0 <= i < |s'.workers| && s'.workers[i].Exited? ==> s.workers[i].Exited?;
  }

  lemma ExitKeeps(cfg: Config, s: State, w: nat)
    requires Inv(cfg, s) && Enabled(s, Exit(w))
    ensures Inv(cfg, Next(cfg, s, Exit(w)))
  {
    var s' := Next(cfg, s, Exit(w));
    forall a ensures Places(s', a) == Places(s, a) && HeldSaved(s'.workers, a) == HeldSaved(s.workers, a) {
      HeldUpdate(s.workers, w, Exited, a);
    }
    SamePlaces(cfg, s, s');
    BusyUpdate(s.workers, w, Exited);
  }

  lemma CancelKeeps(cfg: Config, s: State)
    requires Inv(cfg, s)
    ensures Inv(cfg, Next(cfg, s, Cancel))
  {
    var s' := Next(cfg, s, Cancel);
    assert forall a :: Places(s', a) == Places(s, a);
    forall k | k in s'.visited ensures exists a :: Places(s', a) > 0 && Key(a) == k {
      var a :| Places(s, a) > 0 && Key(a) == k;
      assert Places(s', a) > 0;
    }
  }

  // ---- Expanding keeps the books ----

  lemma {:induction false} KeysOfIn(s: seq<Argv>, k: string) returns (a: Argv)
    requires k in KeysOf(s)
    ensures a in s && Key(a) == k
    decreases |s|
  {
    if k in KeysOf(s[..|s| - 1]) {
      a := KeysOfIn(s[..|s| - 1], k);
    } else {
      a := s[|s| - 1];
    }
  }

  lemma {:induction false} HolderHolds(ws: seq<Worker>, w: nat)
    requires w < |ws| && (ws[w].Probing? || ws[w].Saved?)
    ensures Held(ws, ws[w].argv) > 0
    decreases |ws|
  {
    if w < |ws| - 1 {
      HolderHolds(ws[..|ws| - 1], w);
    }
  }

  /** The paths a worker adds when it finishes its page: none when cancelled or at the depth limit. */
  ghost predicate Adds(cfg: Config, s: State, argv: Argv, s': State, added: seq<Argv>) {
    var f, g := Frontier(s.pending, s.visited), Frontier(s'.pending, s'.visited);
    if !s.cancelled && MayDescend(cfg, argv) then Found(f, argv, cfg.probe(argv), g, added)
    else g == f && added == []
  }

  lemma ExpandAdds(cfg: Config, s: State, w: nat) returns (added: seq<Argv>)
    requires Enabled(s, Expand(w))
    ensures var s' := Next(cfg, s, Expand(w));
            && Adds(cfg, s, s.workers[w].argv, s', added)
            && (forall a :: Places(s', a) == Places(s, a) + Times(added, a))
            && (forall a :: Times(s'.finished, a) + HeldSaved(s'.workers, a) == Times(s.finished, a) + HeldSaved(s.workers, a))
  {
    var s' := Next(cfg, s, Expand(w));
    var argv := s.workers[w].argv;
    if !s.cancelled && MayDescend(cfg, argv) {
      added := AddChildrenFinds(Frontier(s.pending, s.visited), argv, cfg.probe(argv));
    } else {
      added := [];
      assert s.pending + added == s.pending;
    }
    forall a ensures Places(s', a) == Places(s, a) + Times(added, a)
                     && Times(s'.finished, a) + HeldSaved(s'.workers, a) == Times(s.finished, a) + HeldSaved(s.workers, a) {
      TimesAppend(s.pending, added, a);
      HeldUpdate(s.workers, w, Ready, a);
    }
  }

  lemma AddedIsNew(cfg: Config, s: State, argv: Argv, s': State, added: seq<Argv>, a: Argv)
    requires Accounted(cfg, s) && Adds(cfg, s, argv, s', added) && Reachable(cfg, argv) && a in added
    ensures Places(s, a) == 0 && Times(added, a) == 1 && Reachable(cfg, a) && Key(a) in s'.visited
  {
    var i :| 0 <= i < |added| && added[i] == a;
    TimesDistinct(added, a);
    TimesIn(added, a);
    assert ChildAmong(argv, cfg.probe(argv), added[i]);
    var e :| e in cfg.probe(argv) && Wanted(e) && a == argv + [e.name];
    assert IsChild(cfg, argv, e.name);
    ReachableChild(cfg, argv, e.name);
  }

  lemma ExpandAccounted(cfg: Config, s: State, argv: Argv, s': State, added: seq<Argv>)
    requires Accounted(cfg, s) && Adds(cfg, s, argv, s', added) && Reachable(cfg, argv)
    requires forall a :: Places(s', a) == Places(s, a) + Times(added, a)
    ensures Accounted(cfg, s')
  {
    forall a | Places(s', a) > 0 ensures Places(s', a) == 1 && Reachable(cfg, a) && Key(a) in s'.visited {
      TimesIn(added, a);
      if a in added {
        AddedIsNew(cfg, s, argv, s', added, a);
      } else {
        assert Places(s, a) > 0;
      }
    }
    forall k | k in s'.visited ensures exists a :: Places(s', a) > 0 && Key(a) == k {
      if k in s.visited {
        var a :| Places(s, a) > 0 && Key(a) == k;
        assert Places(s', a) > 0;
      } else {
        var a := KeysOfIn(added, k);
        TimesIn(added, a);
        assert Places(s', a) > 0;
      }
    }
    assert Places(s, [cfg.tool]) > 0;
  }

  lemma ChildKnown(cfg: Config, s: State, s': State, argv: Argv, added: seq<Argv>, name: string)
    requires !s.cancelled && Adds(cfg, s, argv, s', added) && Reachable(cfg, argv)
    requires Accounted(cfg, s') && IsChild(cfg, argv, name)
    ensures Places(s', argv + [name]) > 0
  {
    var child := argv + [name];
    var e :| e in cfg.probe(argv) && Wanted(e) && e.name == name;
    assert Key(argv + [e.name]) in s'.visited;
    var b :| Places(s', b) > 0 && Key(b) == Key(child);
    ReachableChild(cfg, argv, name);
    ReachablePlain(cfg, child);
    ReachablePlain(cfg, b);
    KeyInjective(cfg.tool, b, child);
  }

  lemma ExpandClosed(cfg: Config, s: State, argv: Argv, s': State, added: seq<Argv>)
    requires Closed(cfg, s) && Adds(cfg, s, argv, s', added) && Reachable(cfg, argv) && Accounted(cfg, s')
    requires forall a :: Places(s', a) >= Places(s, a)
    requires s'.finished == s.finished + [argv] && s'.cancelled == s.cancelled
    ensures Closed(cfg, s')
  {
    if !s.cancelled {
      forall a, name | a in s'.finished && IsChild(cfg, a, name) ensures Places(s', a + [name]) > 0 {
        if a == argv {
          ChildKnown(cfg, s, s', argv, added, name);
        } else {
          assert Places(s, a + [name]) > 0;
        }
      }
    }
  }

  lemma ExpandQuiescent(cfg: Config, s: State, w: nat)
    requires Enabled(s, Expand(w)) && Quiescent(s) && s.active == BusyCount(s.workers)
    ensures var s' := Next(cfg, s, Expand(w)); Quiescent(s') && s'.active == BusyCount(s'.workers)
  {
    var s' := Next(cfg, s, Expand(w));
    BusyUpdate(s.workers, w, Ready);
    assert forall i :: 0 <= i < |s'.workers| && s'.workers[i].Exited? ==> s.workers[i].Exited?;
  }

  lemma ExpandKeeps(cfg: Config, s: State, w: nat)
    requires Inv(cfg, s) && Enabled(s, Expand(w))
    ensures Inv(cfg, Next(cfg, s, Expand(w)))
  {
    var s' := Next(cfg, s, Expand(w));
    var argv := s.workers[w].argv;
    var added := ExpandAdds(cfg, s, w);
    HolderHolds(s.workers, w);
    assert Reachable(cfg, argv) by { assert Places(s, argv) > 0; }
    ExpandAccounted(cfg, s, argv, s', added);
    assert forall a :: Places(s', a) >= Places(s, a);
    ExpandClosed(cfg, s, argv, s', added);
    ExpandQuiescent(cfg, s, w);
    assert Counted(s');
  }

  lemma StepKeeps(cfg: Config, s: State, step: Step)
    requires Inv(cfg, s) && Enabled(s, step)
    ensures Inv(cfg, Next(cfg, s, step))
  {
    match step
    case Take(w) => TakeKeeps(cfg, s, w);
    case Save(w) => SaveKeeps(cfg, s, w);
    case Expand(w) => ExpandKeeps(cfg, s, w);
    case Exit(w) => ExitKeeps(cfg, s, w);
    case Cancel => CancelKeeps(cfg, s);
  }

  /** Every state of every schedule satisfies the invariant. */
  lemma {:induction false} Safety(cfg: Config, jobs: nat, states: seq<State>, steps: seq<Step>, i: nat)
    requires IsRun(cfg, jobs, states, steps) && i < |states|
    ensures Inv(cfg, states[i]) && |states[i].workers| == jobs
    decreases i
  {
    if i == 0 {
      InitialInv(cfg, jobs);
    } else {
      Safety(cfg, jobs, states, steps, i - 1);
      assert Enabled(states[i - 1], steps[i - 1]) && states[i] == Next(cfg, states[i - 1], steps[i - 1]);
      StepKeeps(cfg, states[i - 1], steps[i - 1]);
    }
  }

  // ---- What the walk achieves ----

  /** A worker waits only while another holds a page, and unless all have left somebody can move. */
  lemma NeverStuck(cfg: Config, s: State, w: nat) returns (step: Step)
    requires Inv(cfg, s) && w < |s.workers| && !s.workers[w].Exited?
    ensures Enabled(s, step) && step != Cancel
  {
    if exists i :: 0 <= i < |s.workers| && (s.workers[i].Probing? || s.workers[i].Saved?) {
      var i :| 0 <= i < |s.workers| && (s.workers[i].Probing? || s.workers[i].Saved?);
      step := if s.workers[i].Probing? then Save(i) else Expand(i);
    } else {
      NobodyBusy(s.workers, []);
      step := if s.cancelled || s.pending == [] then Exit(w) else Take(w);
    }
  }

  lemma {:induction false} ReachableIsFinished(cfg: Config, s: State, argv: Argv)
    requires Inv(cfg, s) && !s.cancelled && Reachable(cfg, argv)
    requires forall a :: Places(s, a) == Times(s.finished, a)
    ensures argv in s.finished
    decreases |argv|
  {
    if |argv| == 1 {
      assert argv == [cfg.tool];
    } else {
      var n := |argv| - 1;
      var parent := argv[..n];
      assert Reachable(cfg, parent) by {
        forall i | 1 <= i < |parent| ensures IsChild(cfg, parent[..i], parent[i]) {
          assert parent[..i] == argv[..i];
        }
      }
      ReachableIsFinished(cfg, s, parent);
      assert IsChild(cfg, argv[..n], argv[n]);
      assert argv == parent + [argv[n]];
    }
    assert Places(s, argv) > 0;
    TimesIn(s.finished, argv);
  }

  /**
    When all workers have left without cancellation, the pages saved are exactly the
    paths of the help tree, each saved once, whatever the schedule and the number of workers.
  */
  lemma WalkComplete(cfg: Config, jobs: nat, states: seq<State>, steps: seq<Step>, argv: Argv)
    requires jobs >= 1 && IsRun(cfg, jobs, states, steps)
    requires var s := states[|steps|]; !s.cancelled && forall i :: 0 <= i < |s.workers| ==> s.workers[i].Exited?
    ensures var s := states[|steps|];
            && Times(s.saved, argv) == (if OnTree(cfg, argv) then 1 else 0)
            && (argv in s.saved <==> OnTree(cfg, argv))
            && s.pages == |s.finished|
  {
    var s := states[|steps|];
    Safety(cfg, jobs, states, steps, |steps|);
    ReachableMeans(cfg, argv);
    assert s.workers[0].Exited?;
    forall a ensures Places(s, a) == Times(s.finished, a) == Times(s.saved, a) {
      NobodyBusy(s.workers, a);
    }
    TimesIn(s.saved, argv);
    TimesIn(s.finished, argv);
    if Reachable(cfg, argv) {
      ReachableIsFinished(cfg, s, argv);
      assert Places(s, argv) == 1;
    } else {
      assert Places(s, argv) == 0;
    }
  }

  /** At no time is a path probed twice: whoever takes one takes a path nobody has taken before. */
  lemma TakenOnce(cfg: Config, s: State, w: nat)
    requires Inv(cfg, s) && Enabled(s, Take(w))
    ensures Held(s.workers, s.pending[0]) == 0 && Times(s.saved, s.pending[0]) == 0 && s.pending[0] !in s.finished
  {
    var a := s.pending[0];
    TimesCons(s.pending, a);
    TimesIn(s.finished, a);
    assert Places(s, a) == 1;
    SavedAreHeld(s.workers, a);
  }

  lemma {:induction false} SavedAreHeld(ws: seq<Worker>, a: Argv)
    ensures HeldSaved(ws, a) <= Held(ws, a)
    decreases |ws|
  {
    if ws != [] {
      SavedAreHeld(ws[..|ws| - 1], a);
    }
  }
}
