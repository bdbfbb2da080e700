/** The RAM cache of live history, kept next to the table and answering suggestions. */
module HistoryCache {
  import opened Base
  import opened Merge
  import opened CacheSpec
  import opened CacheRep
  import opened PoolCompaction
  import opened PrefixSearch

  /** The record of a run of command `cmdID`, its strings interned. */
  method InternRun(p: Pool, e: Entry, cmdID: nat, freq: int) returns (p': Pool, r: Rec)
    requires PoolOk(p) && cmdID < |p.strs|
    ensures PoolOk(p') && Extends(p, p')
    ensures r.cmd == cmdID && RecIn(p', r)
    ensures SummaryOf(p', r) == Summary(e.cwd, e.device, e.session, e.start, DurationOf(e), ExitOf(e), freq)
  {
    var (p1, cwd) := Intern(p, e.cwd);
    var (p2, device) := Intern(p1, e.device);
    var (p3, session) := Intern(p2, e.session);
    p' := p3;
    r := Rec(cmdID, cwd, device, session, e.start, DurationOf(e), ExitOf(e), freq);
  }

  lemma LatestRun(p: Pool, p': Pool, recs: seq<Rec>, byCmd: map<nat, nat>, idToCmd: map<string, nat>, v: View, e: Entry,
                  cmdID: nat, idx: nat, r: Rec)
    requires Holds(p, recs, byCmd, idToCmd, v) && PoolOk(p') && Extends(p, p') && !e.deleted && e.command != ""
    requires cmdID < |p.strs| && p.strs[cmdID] == e.command && cmdID in byCmd && idx == byCmd[cmdID]
    requires e.start >= recs[idx].lastStart && r.cmd == cmdID && RecIn(p', r)
    requires SummaryOf(p', r) == Summary(e.cwd, e.device, e.session, e.start, DurationOf(e), ExitOf(e), recs[idx].freq + 1)
    ensures Holds(p', recs[idx := r], byCmd, idToCmd[e.id := cmdID], Create(v, e))
  {
    GrowHolds(p, p', recs, byCmd, idToCmd, v);
    CreateOnOldLatest(p', recs, byCmd, idToCmd, v, e, cmdID, idx, r);
  }

  lemma NewRun(p: Pool, p': Pool, recs: seq<Rec>, byCmd: map<nat, nat>, idToCmd: map<string, nat>, v: View, e: Entry, r: Rec)
    requires Holds(p, recs, byCmd, idToCmd, v) && PoolOk(p') && Extends(p, p') && !e.deleted && e.command != ""
    requires r.cmd < |p.strs| && p.strs[r.cmd] == e.command && r.cmd !in byCmd && RecIn(p', r)
    requires SummaryOf(p', r) == FirstRun(e)
    ensures Holds(p', recs + [r], byCmd[r.cmd := |recs|], idToCmd[e.id := r.cmd], Create(v, e))
  {
    GrowHolds(p, p', recs, byCmd, idToCmd, v);
    CreateOnNew(p', recs, byCmd, idToCmd, v, e, r);
  }

  /** Looking a number up gives the empty string when the pool does not have it. */
  function Get(p: Pool, id: nat): string {
    if id >= |p.strs| then "" else p.strs[id]
  }

  function Names(p: Pool, recs: seq<Rec>): seq<string> {
    seq(|recs|, i requires 0 <= i < |recs| => Get(p, recs[i].cmd))
  }

  lemma NamesOfRecs(p: Pool, recs: seq<Rec>, byCmd: map<nat, nat>, m: map<string, Summary>)
    requires Stored(p, recs, byCmd, m)
    ensures AllIn(p, recs) && Distinct(Names(p, recs)) && NameSet(Names(p, recs)) == m.Keys
  {
    StoredAllIn(p, recs, byCmd, m);
    var names := Names(p, recs);
    forall i, j | 0 <= i < j < |names| ensures names[i] != names[j] {
      assert byCmd[recs[i].cmd] == i && byCmd[recs[j].cmd] == j;
    }
    forall i | 0 <= i < |names| ensures names[i] in m {
      KnownCommand(p, recs, byCmd, m, recs[i].cmd);
    }
    forall c | c in m ensures c in names {
      KnownCommand(p, recs, byCmd, m, p.nums[c]);
      assert names[byCmd[p.nums[c]]] == c;
    }
  }

  lemma SameNamesAfter(p: Pool, recs: seq<Rec>, p': Pool, recs': seq<Rec>)
    requires SameRecs(p, recs, p', recs')
    ensures Names(p', recs') == Names(p, recs)
  {
    assert forall i :: 0 <= i < |recs| ==> SameRec(p, recs[i], p', recs'[i]);
  }

  ghost predicate SameCommands(a: seq<Rec>, b: seq<Rec>) {
    |a| == |b| && forall i :: 0 <= i < |a| ==> a[i].cmd == b[i].cmd
  }

  /** What the cache answers about one command. */
  datatype Hit = Hit(command: string, cwd: string, device: string, session: string, start: int,
                     exit: Option<int>, duration: Option<int>)

  function EntryFrom(p: Pool, r: Rec): Hit {
    Hit(Get(p, r.cmd), Get(p, r.cwd), Get(p, r.device), Get(p, r.session), r.lastStart,
        if r.lastExit >= 0 then Some(r.lastExit) else None,
        if r.lastDuration > 0 then Some(r.lastDuration) else None)
  }

  function CommandsOf(hits: seq<Hit>): (cmds: seq<string>)
    ensures |cmds| == |hits| && forall i :: 0 <= i < |hits| ==> cmds[i] == hits[i].command
  {
    if hits == [] then [] else CommandsOf(hits[..|hits| - 1]) + [hits[|hits| - 1].command]
  }

  /** The columns of a hit: those of the summary; a negative exit status or a duration of 0 is not reported. */
  ghost predicate ReportsRun(h: Hit, s: Summary) {
    && h.cwd == s.cwd && h.device == s.device && h.session == s.session && h.start == s.lastStart
    && (if s.lastExit >= 0 then h.exit == Some(s.lastExit) else h.exit == None)
    && (if s.lastDuration > 0 then h.duration == Some(s.lastDuration) else h.duration == None)
  }

  /** Every hit reports its command's summary. */
  ghost predicate Reports(hits: seq<Hit>, m: map<string, Summary>) {
    forall i :: 0 <= i < |hits| ==> hits[i].command in m && ReportsRun(hits[i], m[hits[i].command])
  }

  lemma EntryReports(p: Pool, recs: seq<Rec>, byCmd: map<nat, nat>, m: map<string, Summary>, i: nat)
    requires Stored(p, recs, byCmd, m) && i < |recs|
    ensures var h := EntryFrom(p, recs[i]); h.command == Names(p, recs)[i] && h.command in m && ReportsRun(h, m[h.command])
  {
    StoredAllIn(p, recs, byCmd, m);
    KnownCommand(p, recs, byCmd, m, recs[i].cmd);
  }

  lemma {:induction false} EntriesReport(p: Pool, recs: seq<Rec>, byCmd: map<nat, nat>, m: map<string, Summary>, at: seq<nat>, hits: seq<Hit>)
    requires Stored(p, recs, byCmd, m) && |hits| == |at|
    requires forall j :: 0 <= j < |at| ==> at[j] < |recs| && hits[j] == EntryFrom(p, recs[at[j]])
    ensures Reports(hits, m) && CommandsOf(hits) == NamesAt(Names(p, recs), at)
  {
    forall j | 0 <= j < |hits|
      ensures var h := hits[j]; h.command == Names(p, recs)[at[j]] && h.command in m && ReportsRun(h, m[h.command])
    {
      EntryReports(p, recs, byCmd, m, at[j]);
    }
  }

  method Entries(p: Pool, recs: seq<Rec>, at: seq<nat>) returns (hits: seq<Hit>)
    requires forall j :: 0 <= j < |at| ==> at[j] < |recs|
    ensures |hits| == |at| && forall j :: 0 <= j < |at| ==> hits[j] == EntryFrom(p, recs[at[j]])
  {
    hits := [];
    for j := 0 to |at|
      invariant |hits| == j && forall k :: 0 <= k < j ==> hits[k] == EntryFrom(p, recs[at[k]])
    {
      hits := hits + [EntryFrom(p, recs[at[j]])];
    }
  }

  /** Compaction, as the index sees it: the names stay where they are. */
  method CompactNames(p: Pool, recs: seq<Rec>, ghost byCmd: map<nat, nat>, idToCmd: map<string, nat>, ghost v: View)
    returns (p': Pool, recs': seq<Rec>, byCmd': map<nat, nat>, idToCmd': map<string, nat>)
    requires Holds(p, recs, byCmd, idToCmd, v)
    ensures Holds(p', recs', byCmd', idToCmd', v)
    ensures Names(p', recs') == Names(p, recs)
    ensures |p'.strs| == |Refs(recs')|
  {
    p', recs', byCmd', idToCmd' := CompactPool(p, recs, byCmd, idToCmd, v);
    SameNamesAfter(p, recs, p', recs');
  }

  class Cache {
    var pool: Pool
    var recs: seq<Rec>
    var byCmd: map<nat, nat>
    var idToCmd: map<string, nat>
    var sorted: seq<nat>
    var dirty: bool
    ghost var view: View

    /** The stored data shows the view, and the view is sound. */
    ghost predicate Core()
      reads this
    {
      Holds(pool, recs, byCmd, idToCmd, view) && view.dirty == dirty
    }

    constructor ()
      ensures Core() && view == EMPTY_VIEW && sorted == []
    {
      pool := Pool([], map[]);
      recs, byCmd, idToCmd, sorted, dirty := [], map[], map[], [], false;
      view := EMPTY_VIEW;
    }

    /** Puts new data in place; everything a caller can see of it is the view. */
    method Commit(pool': Pool, recs': seq<Rec>, byCmd': map<nat, nat>, idToCmd': map<string, nat>, ghost view': View)
      requires Holds(pool', recs', byCmd', idToCmd', view') && view'.dirty == dirty
      modifies this`pool, this`recs, this`byCmd, this`idToCmd, this`view
      ensures Core() && view == view'
      ensures pool == pool' && recs == recs' && byCmd == byCmd' && idToCmd == idToCmd'
    {
      pool, recs, byCmd, idToCmd := pool', recs', byCmd', idToCmd';
      view := view';
    }

    method ApplyCreatedLocked(e: Entry)
      requires Core()
      modifies this`pool, this`recs, this`byCmd, this`idToCmd, this`view
      ensures Core() && view == Create(old(view), e)
    {
      if e.deleted || e.command == "" {
        return;
      }
      var (p, cmdID) := Intern(pool, e.command);
      GrowHolds(pool, p, recs, byCmd, idToCmd, view);
      if cmdID in byCmd {
        var idx := byCmd[cmdID];
        if e.start >= recs[idx].lastStart {
          BumpLatest(p, e, cmdID, idx);
        } else {
          BumpEarlier(p, e, cmdID, idx);
        }
      } else {
        var p', r := InternRun(p, e, cmdID, 1);
        NewRun(p, p', recs, byCmd, idToCmd, view, e, r);
        Commit(p', recs + [r], byCmd[cmdID := |recs|], idToCmd[e.id := cmdID], Create(view, e));
      }
    }

    /** One more run of a recorded command, started no earlier than the latest one. */
    method BumpLatest(p: Pool, e: Entry, cmdID: nat, idx: nat)
      requires Holds(p, recs, byCmd, idToCmd, view) && view.dirty == dirty && !e.deleted && e.command != ""
      requires cmdID < |p.strs| && p.strs[cmdID] == e.command && cmdID in byCmd && idx == byCmd[cmdID]
      requires e.start >= recs[idx].lastStart
      modifies this`pool, this`recs, this`byCmd, this`idToCmd, this`view
      ensures Core() && view == Create(old(view), e)
    {
      var p', r := InternRun(p, e, cmdID, recs[idx].freq + 1);
      LatestRun(p, p', recs, byCmd, idToCmd, view, e, cmdID, idx, r);
      Commit(p', recs[idx := r], byCmd, idToCmd[e.id := cmdID], Create(view, e));
    }

    method BumpEarlier(p: Pool, e: Entry, cmdID: nat, idx: nat)
      requires Holds(p, recs, byCmd, idToCmd, view) && view.dirty == dirty && !e.deleted && e.command != ""
      requires cmdID < |p.strs| && p.strs[cmdID] == e.command && cmdID in byCmd && idx == byCmd[cmdID]
      requires e.start < recs[idx].lastStart
      modifies this`pool, this`recs, this`byCmd, this`idToCmd, this`view
      ensures Core() && view == Create(old(view), e)
    {
      var r := recs[idx].(freq := recs[idx].freq + 1);
      CreateOnOldEarlier(p, recs, byCmd, idToCmd, view, e, cmdID, idx, r);
      Commit(p, recs[idx := r], byCmd, idToCmd[e.id := cmdID], Create(view, e));
    }

    method ApplyCompletedLocked(c: Completion)
      requires Core()
      modifies this`pool, this`recs, this`byCmd, this`idToCmd, this`view
      ensures Core() && view == Complete(old(view), c)
      ensures pool == old(pool) && SameCommands(old(recs), recs)
    {
      if c.id !in idToCmd {
        return;
      }
      var idx := byCmd[idToCmd[c.id]];
      var r := recs[idx].(lastExit := c.exit, lastDuration := CompletedDuration(recs[idx].lastStart, c.end));
      CompleteHolds(pool, recs, byCmd, idToCmd, view, c, idx, r);
      Commit(pool, recs[idx := r], byCmd, idToCmd, Complete(view, c));
    }

    /** One tombstoned id: unknown ids make the cache dirty. */
    method BuryId(id: string)
      requires Core()
      modifies this`pool, this`recs, this`byCmd, this`idToCmd, this`dirty, this`view
      ensures Core() && view == Bury(old(view), id)
    {
      if id !in idToCmd {
        dirty, view := true, view.(dirty := true);
        return;
      }
      var idx := byCmd[idToCmd[id]];
      var r := recs[idx].(freq := recs[idx].freq - 1);
      if r.freq <= 0 {
        BuryLast(pool, recs, byCmd, idToCmd, view, id, idx);
        Commit(pool, SwapRemove(recs, idx), Reindex(recs, byCmd, idx), idToCmd - {id}, Bury(view, id));
      } else {
        BuryMany(pool, recs, byCmd, idToCmd, view, id, idx, r);
        Commit(pool, recs[idx := r], byCmd, idToCmd - {id}, Bury(view, id));
      }
    }

    /** Every run of a command goes, and every id that led to it. */
    method BuryCommandLocked(command: string)
      requires Core()
      modifies this`pool, this`recs, this`byCmd, this`idToCmd, this`view
      ensures Core() && view == BuryCommand(old(view), command)
    {
      if command !in pool.nums {
        return;
      }
      var cmdID := pool.nums[command];
      KnownCommand(pool, recs, byCmd, view.recs, cmdID);
      if cmdID !in byCmd {
        return;
      }
      BuryCommandHolds(pool, recs, byCmd, idToCmd, view, cmdID);
      Commit(pool, SwapRemove(recs, byCmd[cmdID]), Reindex(recs, byCmd, byCmd[cmdID]),
             map id | id in idToCmd && idToCmd[id] != cmdID :: idToCmd[id], BuryCommand(view, command));
    }

    // ---- What other components call ----

    /** The stored data shows the view, and the index lists the commands in order. */
    ghost predicate Valid()
      reads this
    {
      Core() && Indexes(Names(pool, recs), |recs|, sorted)
    }

    /** At most half of the pool is unused. */
    ghost predicate Tight()
      reads this
    {
      |pool.strs| <= 2 * |Refs(recs)|
    }

    method Resort()
      requires Core()
      modifies this`sorted
      ensures Valid()
    {
      NamesOfRecs(pool, recs, byCmd, view.recs);
      sorted := SortIndex(Names(pool, recs));
    }

    method Compact()
      requires Valid()
      modifies this`pool, this`recs, this`byCmd, this`idToCmd, this`view
      ensures Valid() && view == old(view) && Tight() && |pool.strs| == |Refs(recs)|
    {
      var p', recs', byCmd', idToCmd' := CompactNames(pool, recs, byCmd, idToCmd, view);
      Commit(p', recs', byCmd', idToCmd', view);
    }

    method MaybeCompact()
      requires Valid()
      modifies this`pool, this`recs, this`byCmd, this`idToCmd, this`view
      ensures Valid() && view == old(view) && Tight()
      ensures var live := |Refs(old(recs))|;
              if old(pool).strs == [] || (live > 0 && |old(pool).strs| <= 2 * live) then pool == old(pool) && recs == old(recs)
              else |pool.strs| == |Refs(recs)|
    {
      if |pool.strs| == 0 {
        return;
      }
      var live := CountReferenced(recs);
      if live == 0 || |pool.strs| > live * 2 {
        Compact();
      }
    }

    method Settle()
      requires Core()
      modifies this`pool, this`recs, this`byCmd, this`idToCmd, this`view, this`sorted
      ensures Valid() && view == old(view) && Tight()
    {
      Resort();
      MaybeCompact();
    }

    method ApplyCreated(e: Entry)
      requires Valid()
      modifies this`pool, this`recs, this`byCmd, this`idToCmd, this`view, this`sorted
      ensures Valid() && Tight() && view == Create(old(view), e)
    {
      ApplyCreatedLocked(e);
      Settle();
    }

    method ApplyCompleted(c: Completion)
      requires Valid()
      modifies this`pool, this`recs, this`byCmd, this`idToCmd, this`view
      ensures Valid() && view == Complete(old(view), c)
    {
      ApplyCompletedLocked(c);
    }

    method BuryIds(ids: seq<string>)
      requires Core()
      modifies this`pool, this`recs, this`byCmd, this`idToCmd, this`dirty, this`view
      ensures Core() && view == BuryAll(old(view), ids)
    {
      for i := 0 to |ids|
        invariant Core() && view == BuryAll(old(view), ids[..i])
      {
        assert ids[..i + 1] == ids[..i] + [ids[i]];
        BuryId(ids[i]);
      }
      assert ids[..|ids|] == ids;
    }

    method ApplyTombstoned(ids: seq<string>)
      requires Valid()
      modifies this`pool, this`recs, this`byCmd, this`idToCmd, this`dirty, this`view, this`sorted
      ensures Valid() && Tight() && view == BuryAll(old(view), ids)
    {
      BuryIds(ids);
      Settle();
    }

    method ApplyTombstoneCommand(command: string)
      requires Valid()
      modifies this`pool, this`recs, this`byCmd, this`idToCmd, this`view, this`sorted
      ensures Valid() && view == BuryCommand(old(view), command)
      ensures old(Tight()) ==> Tight()
    {
      if command !in pool.nums {
        return;
      }
      KnownCommand(pool, recs, byCmd, view.recs, pool.nums[command]);
      if pool.nums[command] !in byCmd {
        return;
      }
      BuryCommandLocked(command);
      Settle();
    }

    method CreateMany(es: seq<Entry>)
      requires Core()
      modifies this`pool, this`recs, this`byCmd, this`idToCmd, this`view
      ensures Core() && view == CreateAll(old(view), es)
    {
      for i := 0 to |es|
        invariant Core() && view == CreateAll(old(view), es[..i])
      {
        assert es[..i + 1] == es[..i] + [es[i]];
        ApplyCreatedLocked(es[i]);
      }
      assert es[..|es|] == es;
    }

    method CompleteMany(cs: seq<Completion>)
      requires Core()
      modifies this`pool, this`recs, this`byCmd, this`idToCmd, this`view
      ensures Core() && view == CompleteAll(old(view), cs)
    {
      for i := 0 to |cs|
        invariant Core() && view == CompleteAll(old(view), cs[..i])
      {
        assert cs[..i + 1] == cs[..i] + [cs[i]];
        ApplyCompletedLocked(cs[i]);
      }
      assert cs[..|cs|] == cs;
    }

    method BuryCommandsLocked(cmds: seq<string>)
      requires Core()
      modifies this`pool, this`recs, this`byCmd, this`idToCmd, this`view
      ensures Core() && view == BuryCommands(old(view), cmds)
    {
      for i := 0 to |cmds|
        invariant Core() && view == BuryCommands(old(view), cmds[..i])
      {
        assert cmds[..i + 1] == cmds[..i] + [cmds[i]];
        BuryCommandLocked(cmds[i]);
      }
      assert cmds[..|cmds|] == cmds;
    }

    method ApplyBatch(cs: ChangeSet)
      requires Valid()
      modifies this`pool, this`recs, this`byCmd, this`idToCmd, this`dirty, this`view, this`sorted
      ensures Valid() && Tight() && view == Batch(old(view), cs)
    {
      CreateMany(cs.created);
      CompleteMany(cs.completed);
      BuryIds(cs.tombstoned);
      BuryCommandsLocked(cs.commands);
      Settle();
    }

    method MarkDirty()
      requires Valid()
      modifies this`dirty, this`view
      ensures Valid() && dirty && view == old(view).(dirty := true)
    {
      dirty, view := true, view.(dirty := true);
    }

    /** A rebuild replaces everything by the scanned rows; a failed scan changes nothing. */
    method Rebuild(rows: seq<Entry>, failed: bool)
      requires Valid()
      modifies this
      ensures Valid()
      ensures failed ==> view == old(view)
      ensures !failed ==> view == CreateAll(EMPTY_VIEW, rows) && !dirty
    {
      var next := new Cache();
      next.CreateMany(rows);
      if failed {
        return;
      }
      next.Resort();
      CreateAllKeeps(EMPTY_VIEW, rows);
      Adopt(next);
    }

    /** Takes the contents of a clean cache. */
    method Adopt(next: Cache)
      requires next.Valid() && !next.dirty
      modifies this
      ensures Valid() && view == old(next.view) && !dirty
    {
      pool, recs, byCmd, idToCmd, sorted := next.pool, next.recs, next.byCmd, next.idToCmd, next.sorted;
      dirty, view := false, next.view;
    }

    /** The first commands that extend the prefix, in byte order; nothing from a dirty cache. */
    method Suggest(prefix: string) returns (hits: seq<Hit>)
      requires Valid()
      ensures prefix == "" || dirty ==> hits == []
      ensures prefix != "" && !dirty ==> Answers(view.recs.Keys, prefix, CommandsOf(hits)) && Reports(hits, view.recs)
    {
      if prefix == "" || dirty {
        return [];
      }
      NamesOfRecs(pool, recs, byCmd, view.recs);
      var at := Find(Names(pool, recs), sorted, prefix);
      hits := Entries(pool, recs, at);
      EntriesReport(pool, recs, byCmd, view.recs, at, hits);
    }
  }
}
