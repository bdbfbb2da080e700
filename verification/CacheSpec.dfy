/**
  What the RAM cache of the history means: which live rows it knows, by id, and a
  summary of each command. The cache proper, with its interned strings, swap-removed
  records and pool compaction, refines these functions.
*/
module CacheSpec {
  import opened Merge

  /** The latest run of a command, and how many runs are live. */
  datatype Summary = Summary(cwd: string, device: string, session: string,
                             lastStart: int, lastDuration: int, lastExit: int, freq: int)

  datatype View = View(ids: map<string, string>, recs: map<string, Summary>, dirty: bool)

  const EMPTY_VIEW := View(map[], map[], false)

  function ExitOf(e: Entry): int {
    if e.exit.Some? then e.exit.value else -1
  }

  function DurationOf(e: Entry): int {
    if e.duration.None? || e.duration.value < 0 then 0 else e.duration.value
  }

  function FirstRun(e: Entry): Summary {
    Summary(e.cwd, e.device, e.session, e.start, DurationOf(e), ExitOf(e), 1)
  }

  /** One more run; it becomes the latest unless it started earlier. */
  function AnotherRun(s: Summary, e: Entry): Summary {
    if e.start >= s.lastStart
    then Summary(e.cwd, e.device, e.session, e.start, DurationOf(e), ExitOf(e), s.freq + 1)
    else s.(freq := s.freq + 1)
  }

  function Create(v: View, e: Entry): View {
    if e.deleted || e.command == "" then v
    else v.(ids := v.ids[e.id := e.command],
         recs := v.recs[e.command := if e.command in v.recs then AnotherRun(v.recs[e.command], e) else FirstRun(e)])
  }

  function CompletedDuration(start: int, end: int): int {
    if start <= 0 || end < start then 0 else end - start
  }

  function Complete(v: View, c: Completion): View {
    if c.id in v.ids && v.ids[c.id] in v.recs then
      var s := v.recs[v.ids[c.id]];
      v.(recs := v.recs[v.ids[c.id] := s.(lastExit := c.exit, lastDuration := CompletedDuration(s.lastStart, c.end))])
    else v
  }

  /** One run fewer; the last one takes the command with it. */
  function DropRun(recs: map<string, Summary>, cmd: string): map<string, Summary> {
    if cmd !in recs then recs
    else if recs[cmd].freq - 1 <= 0 then recs - {cmd}
    else recs[cmd := recs[cmd].(freq := recs[cmd].freq - 1)]
  }

  /** An id the cache does not know makes it dirty. */
  function Bury(v: View, id: string): View {
    if id !in v.ids then v.(dirty := true)
    else v.(ids := v.ids - {id}, recs := DropRun(v.recs, v.ids[id]))
  }

  function BuryCommand(v: View, cmd: string): View {
    if cmd !in v.recs then v
    else v.(ids := map id | id in v.ids && v.ids[id] != cmd :: v.ids[id], recs := v.recs - {cmd})
  }

  function CreateAll(v: View, es: seq<Entry>): View {
    if es == [] then v else Create(CreateAll(v, es[..|es| - 1]), es[|es| - 1])
  }

  function CompleteAll(v: View, cs: seq<Completion>): View {
    if cs == [] then v else Complete(CompleteAll(v, cs[..|cs| - 1]), cs[|cs| - 1])
  }

  function BuryAll(v: View, ids: seq<string>): View {
    if ids == [] then v else Bury(BuryAll(v, ids[..|ids| - 1]), ids[|ids| - 1])
  }

  function BuryCommands(v: View, cmds: seq<string>): View {
    if cmds == [] then v else BuryCommand(BuryCommands(v, cmds[..|cmds| - 1]), cmds[|cmds| - 1])
  }

  /** Creations first, then completions, then tombstones by id, then whole commands. */
  function Batch(v: View, cs: ChangeSet): View {
    BuryCommands(BuryAll(CompleteAll(CreateAll(v, cs.created), cs.completed), cs.tombstoned), cs.commands)
  }

  // ---- The invariant of the view ----

  function IdsOf(ids: map<string, string>, cmd: string): set<string> {
    set id | id in ids && ids[id] == cmd
  }

  /** Every id belongs to a known command, and a command counts at least the ids that belong to it. */
  ghost predicate Sound(v: View) {
    && (forall id :: id in v.ids ==> v.ids[id] in v.recs)
    && (forall cmd :: cmd in v.recs ==> v.recs[cmd].freq >= 1 && v.recs[cmd].freq >= |IdsOf(v.ids, cmd)|)
  }

  lemma IdsAfterSet(ids: map<string, string>, id: string, to: string, cmd: string)
    ensures cmd == to ==> IdsOf(ids[id := to], cmd) == IdsOf(ids, cmd) + {id}
    ensures cmd != to ==> IdsOf(ids[id := to], cmd) == IdsOf(ids, cmd) - {id}
  {
  }

  lemma IdsAfterDrop(ids: map<string, string>, id: string, cmd: string)
    ensures IdsOf(ids - {id}, cmd) == IdsOf(ids, cmd) - {id}
  {
  }

  lemma CreateSound(v: View, e: Entry)
    requires Sound(v)
    ensures Sound(Create(v, e))
  {
    if !e.deleted && e.command != "" {
      var v' := Create(v, e);
      forall cmd | cmd in v'.recs ensures v'.recs[cmd].freq >= 1 && v'.recs[cmd].freq >= |IdsOf(v'.ids, cmd)| {
        IdsAfterSet(v.ids, e.id, e.command, cmd);
        if cmd == e.command && cmd !in v.recs {
          assert IdsOf(v.ids, cmd) == {};
        }
      }
    }
  }

  lemma CompleteSound(v: View, c: Completion)
    requires Sound(v)
    ensures Sound(Complete(v, c))
  {
  }

  lemma BurySound(v: View, id: string)
    requires Sound(v)
    ensures Sound(Bury(v, id))
  {
    if id in v.ids {
      var v', gone := Bury(v, id), v.ids[id];
      assert id in IdsOf(v.ids, gone);
      forall cmd | cmd in v'.recs ensures v'.recs[cmd].freq >= 1 && v'.recs[cmd].freq >= |IdsOf(v'.ids, cmd)| {
        IdsAfterDrop(v.ids, id, cmd);
      }
      forall id' | id' in v'.ids ensures v'.ids[id'] in v'.recs {
        if v'.ids[id'] == gone && v.recs[gone].freq - 1 <= 0 {
          assert {id, id'} <= IdsOf(v.ids, gone);
          assert |IdsOf(v.ids, gone)| <= 1;
          SubsetSize({id, id'}, IdsOf(v.ids, gone));
        }
      }
    }
  }

  lemma SubsetSize<T>(a: set<T>, b: set<T>)
    requires a <= b
    ensures |a| <= |b|
  {
    assert b == a + (b - a);
  }

  lemma BuryCommandSound(v: View, cmd: string)
    requires Sound(v)
    ensures Sound(BuryCommand(v, cmd))
  {
    if cmd in v.recs {
      var v' := BuryCommand(v, cmd);
      forall c | c in v'.recs ensures v'.recs[c].freq >= 1 && v'.recs[c].freq >= |IdsOf(v'.ids, c)| {
        assert IdsOf(v'.ids, c) == IdsOf(v.ids, c);
      }
    }
  }

  /** Creations never make a cache dirty, nor clean. */
  lemma {:induction false} CreateAllKeeps(v: View, es: seq<Entry>)
    ensures CreateAll(v, es).dirty == v.dirty
    decreases |es|
  {
    if es != [] { CreateAllKeeps(v, es[..|es| - 1]); }
  }
}
