/** The walk ends: a bound on the length of every schedule, in the number of command paths there are. */
module WalkBound {
  import opened HelpWalk

  /** Steps a worker has before it: leave, and before that finish the page in its hands. */
  function WorkOf(w: Worker): nat {
    match w
    case Ready => 1
    case Probing(_) => 3
    case Saved(_) => 2
    case Exited => 0
  }

  function Work(ws: seq<Worker>): nat {
    if ws == [] then 0 else Work(ws[..|ws| - 1]) + WorkOf(ws[|ws| - 1])
  }

  lemma {:induction false} WorkUpdate(ws: seq<Worker>, w: nat, x: Worker)
    requires w < |ws|
    ensures Work(ws[w := x]) == Work(ws) - WorkOf(ws[w]) + WorkOf(x)
    decreases |ws|
  {
    var n := |ws| - 1;
    if w == n {
      assert ws[w := x][..n] == ws[..n];
    } else {
      assert ws[w := x][..n] == ws[..n][w := x];
      WorkUpdate(ws[..n], w, x);
    }
  }

  lemma {:induction false} WorkAtStart(ws: seq<Worker>)
    requires forall i :: 0 <= i < |ws| ==> ws[i].Ready?
    ensures Work(ws) == |ws|
    decreases |ws|
  {
    if ws != [] { WorkAtStart(ws[..|ws| - 1]); }
  }

  function AllKeys(paths: set<Argv>): set<string> {
    set a | a in paths :: Key(a)
  }

  lemma {:induction false} FewKeys(paths: set<Argv>)
    ensures |AllKeys(paths)| <= |paths|
    decreases |paths|
  {
    if paths != {} {
      var a :| a in paths;
      FewKeys(paths - {a});
      assert AllKeys(paths) == AllKeys(paths - {a}) + {Key(a)};
    }
  }

  /** `reach` has every command path the walk could find. */
  ghost predicate Bounds(cfg: Config, reach: set<Argv>) {
    forall a :: Reachable(cfg, a) ==> a in reach
  }

  /** Steps that are left at most: three for each path that waits or is still unknown, and what the workers have before them. */
  function Left(reach: set<Argv>, s: State): nat {
    3 * |s.pending| + Work(s.workers) + 3 * |AllKeys(reach) - s.visited|
  }

  lemma {:induction false} KeysInAll(cfg: Config, reach: set<Argv>, added: seq<Argv>, k: string)
    requires Bounds(cfg, reach) && (forall i :: 0 <= i < |added| ==> Reachable(cfg, added[i])) && k in KeysOf(added)
    ensures k in AllKeys(reach)
    decreases |added|
  {
    var a := KeysOfIn(added, k);
    assert a in reach;
  }

  /** Different reachable paths take up different keys. */
  lemma {:induction false} KeysCount(cfg: Config, added: seq<Argv>)
    requires Distinct(added) && forall i :: 0 <= i < |added| ==> Reachable(cfg, added[i])
    ensures |KeysOf(added)| == |added|
    decreases |added|
  {
    if added != [] {
      var init, a := added[..|added| - 1], added[|added| - 1];
      KeysCount(cfg, init);
      if Key(a) in KeysOf(init) {
        var b := KeysOfIn(init, Key(a));
        ReachablePlain(cfg, a);
        ReachablePlain(cfg, b);
        KeyInjective(cfg.tool, a, b);
      }
    }
  }

  lemma FewerUnknown(all: set<string>, visited: set<string>, more: set<string>)
    requires more <= all && more !! visited
    ensures |all - (visited + more)| == |all - visited| - |more|
  {
    assert all - visited == (all - (visited + more)) + more;
  }

  lemma ExpandLeaves(cfg: Config, reach: set<Argv>, s: State, w: nat)
    requires Inv(cfg, s) && Enabled(s, Expand(w)) && Bounds(cfg, reach)
    ensures Left(reach, Next(cfg, s, Expand(w))) < Left(reach, s)
  {
    var s' := Next(cfg, s, Expand(w));
    var argv := s.workers[w].argv;
    WorkUpdate(s.workers, w, Ready);
    HolderHolds(s.workers, w);
    assert Places(s, argv) > 0;
    var added := ExpandAdds(cfg, s, w);
    forall i | 0 <= i < |added| ensures Reachable(cfg, added[i]) && Key(added[i]) !in s.visited {
      AddedIsNew(cfg, s, argv, s', added, added[i]);
    }
    AddedKeys(cfg, reach, s.visited, added);
    FewerUnknown(AllKeys(reach), s.visited, KeysOf(added));
  }

  lemma AddedKeys(cfg: Config, reach: set<Argv>, visited: set<string>, added: seq<Argv>)
    requires Bounds(cfg, reach) && Distinct(added)
    requires forall i :: 0 <= i < |added| ==> Reachable(cfg, added[i]) && Key(added[i]) !in visited
    ensures KeysOf(added) <= AllKeys(reach) && KeysOf(added) !! visited && |KeysOf(added)| == |added|
  {
    KeysCount(cfg, added);
    forall k | k in KeysOf(added) ensures k in AllKeys(reach) && k !in visited {
      KeysInAll(cfg, reach, added, k);
      var a := KeysOfIn(added, k);
    }
  }

  lemma OtherLeaves(cfg: Config, reach: set<Argv>, s: State, step: Step)
    requires Enabled(s, step) && !step.Expand?
    ensures Left(reach, Next(cfg, s, step)) + (if step == Cancel then 0 else 1) == Left(reach, s)
  {
    match step
    case Take(w) => WorkUpdate(s.workers, w, Probing(s.pending[0]));
    case Save(w) => WorkUpdate(s.workers, w, Saved(s.workers[w].argv));
    case Exit(w) => WorkUpdate(s.workers, w, Exited);
    case Cancel =>
  }

  /** Every step of a worker brings the end nearer. */
  lemma StepLeaves(cfg: Config, jobs: nat, states: seq<State>, steps: seq<Step>, reach: set<Argv>, n: nat)
    requires IsRun(cfg, jobs, states, steps) && Bounds(cfg, reach) && n < |steps|
    ensures Left(reach, states[n + 1]) + (if steps[n] == Cancel then 0 else 1) <= Left(reach, states[n])
  {
    Safety(cfg, jobs, states, steps, n);
    assert Enabled(states[n], steps[n]) && states[n + 1] == Next(cfg, states[n], steps[n]);
    if steps[n].Expand? {
      ExpandLeaves(cfg, reach, states[n], steps[n].w);
    } else {
      OtherLeaves(cfg, reach, states[n], steps[n]);
    }
  }

  /** The steps that workers take. */
  function Moves(steps: seq<Step>): nat {
    if steps == [] then 0 else Moves(steps[..|steps| - 1]) + if steps[|steps| - 1] == Cancel then 0 else 1
  }

  lemma {:induction false} RunLeaves(cfg: Config, jobs: nat, states: seq<State>, steps: seq<Step>, reach: set<Argv>, n: nat)
    requires IsRun(cfg, jobs, states, steps) && Bounds(cfg, reach) && n < |states|
    ensures Moves(steps[..n]) + Left(reach, states[n]) <= Left(reach, states[0])
    decreases n
  {
    if n > 0 {
      RunLeaves(cfg, jobs, states, steps, reach, n - 1);
      StepLeaves(cfg, jobs, states, steps, reach, n - 1);
      MovesNext(steps, n - 1);
    }
  }

  lemma MovesNext(steps: seq<Step>, n: nat)
    requires n < |steps|
    ensures Moves(steps[..n + 1]) == Moves(steps[..n]) + if steps[n] == Cancel then 0 else 1
  {
    assert steps[..n + 1][..n] == steps[..n];
  }

  /**
    If there are finitely many reachable paths, every schedule ends: apart from
    cancellations, the workers take at most three steps for each path and one each to
    leave. With NeverStuck, a schedule that cannot be continued has seen all workers leave.
  */
  lemma SchedulesEnd(cfg: Config, jobs: nat, states: seq<State>, steps: seq<Step>, reach: set<Argv>)
    requires IsRun(cfg, jobs, states, steps) && Bounds(cfg, reach)
    ensures Moves(steps) <= 3 * |reach| + jobs
  {
    RunLeaves(cfg, jobs, states, steps, reach, |steps|);
    assert steps[..|steps|] == steps;
    var s := states[0];
    WorkAtStart(s.workers);
    assert Reachable(cfg, [cfg.tool]);
    var k, all := Key([cfg.tool]), AllKeys(reach);
    assert k in all && s.visited == {k};
    FewKeys(reach);
    assert |all - {k}| == |all| - 1;
  }
}
