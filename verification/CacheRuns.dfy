/**
  What the cache remembers of a list of rows: for every command how often it was run,
  and where, when and how it was run last.
*/
module CacheRuns {
  import opened Base
  import opened Merge
  import opened CacheSpec
  import HC = HistoryCache

  predicate Runs(e: Entry, cmd: string) {
    !e.deleted && e.command == cmd
  }

  function RunCount(es: seq<Entry>, cmd: string): nat {
    if es == [] then 0 else RunCount(es[..|es| - 1], cmd) + if Runs(es[|es| - 1], cmd) then 1 else 0
  }

  /** Row `i` is the run of `cmd` that started last; of runs that started together it is the last one listed. */
  ghost predicate IsLatest(es: seq<Entry>, cmd: string, i: nat) {
    && i < |es| && Runs(es[i], cmd)
    && (forall j :: 0 <= j < |es| && Runs(es[j], cmd) ==> es[j].start <= es[i].start)
    && (forall j :: i < j < |es| && Runs(es[j], cmd) ==> es[j].start < es[i].start)
  }

  /** The summary has the columns of the row; -1 stands for no exit status, 0 for no duration. */
  ghost predicate Summarizes(s: Summary, e: Entry) {
    && s.cwd == e.cwd && s.device == e.device && s.session == e.session && s.lastStart == e.start
    && s.lastExit == (match e.exit case Some(n) => n case None => -1)
    && (if e.duration.Some? && e.duration.value > 0 then s.lastDuration == e.duration.value else s.lastDuration == 0)
  }

  /** Row `i` is the last run, and the record says so. */
  ghost predicate RemembersAs(m: map<string, Summary>, es: seq<Entry>, cmd: string, i: nat) {
    IsLatest(es, cmd, i) && cmd in m && Summarizes(m[cmd], es[i])
  }

  ghost predicate Remembers(m: map<string, Summary>, es: seq<Entry>, cmd: string) {
    && (cmd in m <==> RunCount(es, cmd) > 0)
    && (cmd in m ==> m[cmd].freq == RunCount(es, cmd) && exists i: nat :: RemembersAs(m, es, cmd, i))
  }

  lemma LatestStays(es: seq<Entry>, e: Entry, cmd: string, i: nat)
    requires IsLatest(es, cmd, i) && (Runs(e, cmd) ==> e.start < es[i].start)
    ensures IsLatest(es + [e], cmd, i)
  {
  }

  lemma NewLatest(es: seq<Entry>, e: Entry, cmd: string)
    requires Runs(e, cmd) && forall j :: 0 <= j < |es| && Runs(es[j], cmd) ==> es[j].start <= e.start
    ensures IsLatest(es + [e], cmd, |es|)
  {
  }

  lemma {:induction false} NoRuns(es: seq<Entry>, cmd: string)
    requires RunCount(es, cmd) == 0
    ensures forall j :: 0 <= j < |es| ==> !Runs(es[j], cmd)
    decreases |es|
  {
    if es != [] { NoRuns(es[..|es| - 1], cmd); }
  }

  lemma CountSnoc(es: seq<Entry>, e: Entry, cmd: string)
    ensures RunCount(es + [e], cmd) == RunCount(es, cmd) + if Runs(e, cmd) then 1 else 0
  {
    assert (es + [e])[..|es|] == es;
  }

  lemma RemembersKnown(v: View, es: seq<Entry>, e: Entry, cmd: string, i: nat) returns (i': nat)
    requires cmd != "" && RemembersAs(v.recs, es, cmd, i)
    ensures RemembersAs(Create(v, e).recs, es + [e], cmd, i')
    ensures Create(v, e).recs[cmd].freq == v.recs[cmd].freq + if Runs(e, cmd) then 1 else 0
  {
    if Runs(e, cmd) && e.start >= es[i].start {
      NewLatest(es, e, cmd);
      i' := |es|;
    } else {
      LatestStays(es, e, cmd, i);
      i' := i;
    }
  }

  lemma RemembersOne(v: View, es: seq<Entry>, e: Entry, cmd: string)
    requires cmd != "" && Remembers(v.recs, es, cmd)
    ensures Remembers(Create(v, e).recs, es + [e], cmd)
  {
    CountSnoc(es, e, cmd);
    if cmd in v.recs {
      var i: nat :| RemembersAs(v.recs, es, cmd, i);
      var i' := RemembersKnown(v, es, e, cmd, i);
    } else {
      NoRuns(es, cmd);
      if Runs(e, cmd) {
        NewLatest(es, e, cmd);
        assert RemembersAs(Create(v, e).recs, es + [e], cmd, |es|);
      }
    }
  }

  /** Starting from nothing, the cache counts the live runs of every command and remembers the last one of each. */
  lemma {:induction false} CreateAllRemembers(es: seq<Entry>, cmd: string)
    requires cmd != ""
    ensures Remembers(CreateAll(EMPTY_VIEW, es).recs, es, cmd)
    decreases |es|
  {
    if es != [] {
      var init, e := es[..|es| - 1], es[|es| - 1];
      CreateAllRemembers(init, cmd);
      RemembersOne(CreateAll(EMPTY_VIEW, init), init, e, cmd);
      assert init + [e] == es;
    }
  }

  /** A hit shows the columns of the row; no exit status and no duration are not shown, nor a negative one. */
  ghost predicate ShowsRow(h: HC.Hit, e: Entry) {
    && h.command == e.command && h.cwd == e.cwd && h.device == e.device && h.session == e.session && h.start == e.start
    && (e.exit.Some? && e.exit.value >= 0 ==> h.exit == e.exit)
    && (e.exit.None? || e.exit.value < 0 ==> h.exit == None)
    && (if e.duration.Some? && e.duration.value > 0 then h.duration == e.duration else h.duration == None)
  }

  /** What is suggested after a rebuild shows, for each command, its last run. */
  lemma HitsShowLastRuns(rows: seq<Entry>, hits: seq<HC.Hit>, k: nat)
    requires HC.Reports(hits, CreateAll(EMPTY_VIEW, rows).recs) && k < |hits| && hits[k].command != ""
    ensures exists i: nat :: IsLatest(rows, hits[k].command, i) && ShowsRow(hits[k], rows[i])
  {
    CreateAllRemembers(rows, hits[k].command);
    var i: nat :| RemembersAs(CreateAll(EMPTY_VIEW, rows).recs, rows, hits[k].command, i);
    assert ShowsRow(hits[k], rows[i]);
  }

  /** The hit for a command that was just created for the first time, or that started no earlier than the last run, shows the new row. */
  lemma HitAfterCreation(v: View, e: Entry, h: HC.Hit)
    requires !e.deleted && e.command != "" && h.command == e.command && HC.ReportsRun(h, Create(v, e).recs[e.command])
    ensures e.command !in v.recs || e.start >= v.recs[e.command].lastStart ==> ShowsRow(h, e)
    ensures e.command in v.recs && e.start < v.recs[e.command].lastStart ==> HC.ReportsRun(h, v.recs[e.command])
  {
  }

  // ---- The other changes ----

  /** A completion sets exit status and duration of its command; the duration is 0 unless the start is known and not later. */
  lemma CompleteMeans(v: View, c: Completion)
    ensures var v' := Complete(v, c);
            && v'.ids == v.ids && v'.dirty == v.dirty && v'.recs.Keys == v.recs.Keys
            && forall cmd :: cmd in v.recs ==>
                               var s, s' := v.recs[cmd], v'.recs[cmd];
                               if c.id in v.ids && v.ids[c.id] == cmd then
                                 && s'.lastExit == c.exit
                                 && s'.lastDuration == (if s.lastStart > 0 && c.end >= s.lastStart then c.end - s.lastStart else 0)
                                 && s'.cwd == s.cwd && s'.device == s.device && s'.session == s.session && s'.lastStart == s.lastStart && s'.freq == s.freq
                               else s' == s
  {
  }

  /** Removing a command takes its record and every id that leads to it, and nothing else. */
  lemma BuryCommandMeans(v: View, cmd: string)
    ensures var v' := BuryCommand(v, cmd);
            if cmd !in v.recs then v' == v
            else
              && v'.dirty == v.dirty && v'.recs.Keys == v.recs.Keys - {cmd}
              && (forall c :: c in v.recs && c != cmd ==> v'.recs[c] == v.recs[c])
              && (forall id :: id in v'.ids <==> id in v.ids && v.ids[id] != cmd)
              && (forall id :: id in v'.ids ==> v'.ids[id] == v.ids[id])
  {
  }

  /** Removing an id takes one run off its command, the record with the last one, and touches nothing else. */
  lemma BuryMeans(v: View, id: string)
    requires Sound(v)
    ensures var v' := Bury(v, id);
            if id !in v.ids then v'.dirty && v'.ids == v.ids && v'.recs == v.recs
            else
              var cmd := v.ids[id];
              && v'.dirty == v.dirty && v'.ids == v.ids - {id}
              && (forall c :: c in v.recs && c != cmd ==> c in v'.recs && v'.recs[c] == v.recs[c])
              && (forall c :: c in v'.recs ==> c in v.recs)
              && (cmd in v'.recs <==> v.recs[cmd].freq > 1)
              && (cmd in v'.recs ==> v'.recs[cmd] == v.recs[cmd].(freq := v.recs[cmd].freq - 1))
  {
  }
}
