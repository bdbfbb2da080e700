/**
  How the cache stores its view: command, directory, device and session strings are
  interned to numbers, the records are a list without gaps, and two maps lead from a
  command number to its record and from a row id to its command number.
*/
module CacheRep {
  import opened Merge
  import opened CacheSpec

  datatype Rec = Rec(cmd: nat, cwd: nat, device: nat, session: nat,
                     lastStart: int, lastDuration: int, lastExit: int, freq: int)

  /** The interned strings and their numbers are inverse to each other. */
  datatype Pool = Pool(strs: seq<string>, nums: map<string, nat>)

  ghost predicate PoolOk(p: Pool) {
    && (forall s :: s in p.nums ==> p.nums[s] < |p.strs| && p.strs[p.nums[s]] == s)
    && (forall i :: 0 <= i < |p.strs| ==> p.strs[i] in p.nums && p.nums[p.strs[i]] == i)
  }

  predicate RecIn(p: Pool, r: Rec) {
    r.cmd < |p.strs| && r.cwd < |p.strs| && r.device < |p.strs| && r.session < |p.strs|
  }

  function SummaryOf(p: Pool, r: Rec): Summary
    requires RecIn(p, r)
  {
    Summary(p.strs[r.cwd], p.strs[r.device], p.strs[r.session], r.lastStart, r.lastDuration, r.lastExit, r.freq)
  }

  /** `byCmd` is the exact inverse of the record list. */
  ghost predicate Inverse(recs: seq<Rec>, byCmd: map<nat, nat>) {
    && (forall i :: 0 <= i < |recs| ==> recs[i].cmd in byCmd && byCmd[recs[i].cmd] == i)
    && (forall k :: k in byCmd ==> byCmd[k] < |recs| && recs[byCmd[k]].cmd == k)
  }

  /** The records by command number, wherever they stand in the list. */
  ghost function ByNumber(recs: seq<Rec>, byCmd: map<nat, nat>): map<nat, Rec>
    requires Inverse(recs, byCmd)
  {
    map k | k in byCmd :: recs[byCmd[k]]
  }

  /** The summaries are the records, read with the pool's strings. */
  ghost predicate Summarizes(p: Pool, b: map<nat, Rec>, m: map<string, Summary>) {
    && (forall k :: k in b ==> b[k].cmd == k && RecIn(p, b[k]) && p.strs[k] in m && m[p.strs[k]] == SummaryOf(p, b[k]))
    && (forall c :: c in m ==> c in p.nums && p.nums[c] in b)
  }

  ghost predicate Stored(p: Pool, recs: seq<Rec>, byCmd: map<nat, nat>, m: map<string, Summary>) {
    PoolOk(p) && Inverse(recs, byCmd) && Summarizes(p, ByNumber(recs, byCmd), m)
  }

  /** Every id leads to a live record. */
  ghost predicate IdsLead(idToCmd: map<string, nat>, byCmd: map<nat, nat>) {
    forall id :: id in idToCmd ==> idToCmd[id] in byCmd
  }

  ghost predicate ShowsIds(p: Pool, idToCmd: map<string, nat>, ids: map<string, string>) {
    && idToCmd.Keys == ids.Keys
    && forall id :: id in idToCmd ==> idToCmd[id] < |p.strs| && p.strs[idToCmd[id]] == ids[id]
  }

  ghost predicate AllIn(p: Pool, recs: seq<Rec>) {
    forall i :: 0 <= i < |recs| ==> RecIn(p, recs[i])
  }

  lemma StoredAllIn(p: Pool, recs: seq<Rec>, byCmd: map<nat, nat>, m: map<string, Summary>)
    requires Stored(p, recs, byCmd, m)
    ensures AllIn(p, recs)
  {
    forall i | 0 <= i < |recs| ensures RecIn(p, recs[i]) {
      assert ByNumber(recs, byCmd)[recs[i].cmd] == recs[i];
    }
  }

  /** Interning more strings changes nothing that is visible. */
  ghost predicate Extends(p: Pool, p': Pool) {
    && p.strs <= p'.strs
    && forall s :: s in p.nums ==> s in p'.nums && p'.nums[s] == p.nums[s]
  }

  /** The number of `s`, given out now if it had none. */
  function Intern(p: Pool, s: string): (r: (Pool, nat))
    requires PoolOk(p)
    ensures PoolOk(r.0) && r.1 < |r.0.strs| && r.0.strs[r.1] == s
    ensures Extends(p, r.0)
  {
    if s in p.nums then (p, p.nums[s])
    else (Pool(p.strs + [s], p.nums[s := |p.strs|]), |p.strs|)
  }

  lemma GrowSummarizes(p: Pool, p': Pool, b: map<nat, Rec>, m: map<string, Summary>)
    requires PoolOk(p) && Summarizes(p, b, m) && Extends(p, p')
    ensures Summarizes(p', b, m)
  {
    forall k | k in b ensures RecIn(p', b[k]) && SummaryOf(p', b[k]) == SummaryOf(p, b[k]) && p'.strs[k] == p.strs[k] {
    }
  }

  lemma GrowIds(p: Pool, p': Pool, idToCmd: map<string, nat>, ids: map<string, string>)
    requires ShowsIds(p, idToCmd, ids) && Extends(p, p')
    ensures ShowsIds(p', idToCmd, ids)
  {
  }

  /** A command has a record exactly when its number leads to one. */
  lemma KnownCommand(p: Pool, recs: seq<Rec>, byCmd: map<nat, nat>, m: map<string, Summary>, c: nat)
    requires Stored(p, recs, byCmd, m) && c < |p.strs|
    ensures p.strs[c] in m <==> c in byCmd
    ensures c in byCmd ==> recs[byCmd[c]].cmd == c && RecIn(p, recs[byCmd[c]]) && m[p.strs[c]] == SummaryOf(p, recs[byCmd[c]])
  {
    if c in byCmd {
      assert ByNumber(recs, byCmd)[c] == recs[byCmd[c]];
    }
  }

  lemma DistinctStrings(p: Pool, j: nat, k: nat)
    requires PoolOk(p) && j < |p.strs| && k < |p.strs| && j != k
    ensures p.strs[j] != p.strs[k]
  {
  }

  lemma PutSummary(p: Pool, b: map<nat, Rec>, m: map<string, Summary>, r: Rec)
    requires PoolOk(p) && Summarizes(p, b, m) && RecIn(p, r)
    ensures Summarizes(p, b[r.cmd := r], m[p.strs[r.cmd] := SummaryOf(p, r)])
  {
    var b', m' := b[r.cmd := r], m[p.strs[r.cmd] := SummaryOf(p, r)];
    forall k | k in b' ensures b'[k].cmd == k && RecIn(p, b'[k]) && p.strs[k] in m' && m'[p.strs[k]] == SummaryOf(p, b'[k]) {
      if k != r.cmd { DistinctStrings(p, k, r.cmd); }
    }
    forall c | c in m' ensures c in p.nums && p.nums[c] in b' {
      if c != p.strs[r.cmd] { assert c in m; }
    }
  }

  lemma DropSummary(p: Pool, b: map<nat, Rec>, m: map<string, Summary>, c: nat)
    requires PoolOk(p) && Summarizes(p, b, m) && c < |p.strs|
    ensures Summarizes(p, b - {c}, m - {p.strs[c]})
  {
    var b', m' := b - {c}, m - {p.strs[c]};
    forall k | k in b' ensures p.strs[k] in m' && m'[p.strs[k]] == SummaryOf(p, b'[k]) {
      DistinctStrings(p, k, c);
    }
    forall s | s in m' ensures s in p.nums && p.nums[s] in b' {
      assert s in m && p.strs[p.nums[s]] == s;
    }
  }

  lemma AddNumber(recs: seq<Rec>, byCmd: map<nat, nat>, r: Rec)
    requires Inverse(recs, byCmd) && r.cmd !in byCmd
    ensures Inverse(recs + [r], byCmd[r.cmd := |recs|])
    ensures ByNumber(recs + [r], byCmd[r.cmd := |recs|]) == ByNumber(recs, byCmd)[r.cmd := r]
  {
  }

  lemma SetNumber(recs: seq<Rec>, byCmd: map<nat, nat>, idx: nat, r: Rec)
    requires Inverse(recs, byCmd) && idx < |recs| && r.cmd == recs[idx].cmd
    ensures Inverse(recs[idx := r], byCmd)
    ensures ByNumber(recs[idx := r], byCmd) == ByNumber(recs, byCmd)[r.cmd := r]
  {
  }

  lemma AddRec(p: Pool, recs: seq<Rec>, byCmd: map<nat, nat>, m: map<string, Summary>, r: Rec)
    requires Stored(p, recs, byCmd, m) && RecIn(p, r) && r.cmd !in byCmd
    ensures Stored(p, recs + [r], byCmd[r.cmd := |recs|], m[p.strs[r.cmd] := SummaryOf(p, r)])
  {
    AddNumber(recs, byCmd, r);
    PutSummary(p, ByNumber(recs, byCmd), m, r);
  }

  lemma SetRec(p: Pool, recs: seq<Rec>, byCmd: map<nat, nat>, m: map<string, Summary>, idx: nat, r: Rec)
    requires Stored(p, recs, byCmd, m) && idx < |recs| && RecIn(p, r) && r.cmd == recs[idx].cmd
    ensures Stored(p, recs[idx := r], byCmd, m[p.strs[r.cmd] := SummaryOf(p, r)])
  {
    SetNumber(recs, byCmd, idx, r);
    PutSummary(p, ByNumber(recs, byCmd), m, r);
  }

  /** The record at `idx` goes; the last record takes its place. */
  function SwapRemove(recs: seq<Rec>, idx: nat): seq<Rec>
    requires idx < |recs|
  {
    if idx == |recs| - 1 then recs[..|recs| - 1] else recs[idx := recs[|recs| - 1]][..|recs| - 1]
  }

  function Reindex(recs: seq<Rec>, byCmd: map<nat, nat>, idx: nat): map<nat, nat>
    requires idx < |recs|
  {
    (if idx == |recs| - 1 then byCmd else byCmd[recs[|recs| - 1].cmd := idx]) - {recs[idx].cmd}
  }

  lemma SwapRemoveInverse(recs: seq<Rec>, byCmd: map<nat, nat>, idx: nat)
    requires Inverse(recs, byCmd) && idx < |recs|
    ensures Inverse(SwapRemove(recs, idx), Reindex(recs, byCmd, idx))
  {
    var last := |recs| - 1;
    var recs' := SwapRemove(recs, idx);
    assert forall i :: 0 <= i < last ==> recs'[i] == if i == idx then recs[last] else recs[i];
    assert forall i, j :: 0 <= i < j < |recs| ==> recs[i].cmd != recs[j].cmd;
  }

  lemma SwapRemoveNumber(recs: seq<Rec>, byCmd: map<nat, nat>, idx: nat)
    requires Inverse(recs, byCmd) && idx < |recs|
    ensures Inverse(SwapRemove(recs, idx), Reindex(recs, byCmd, idx))
    ensures ByNumber(SwapRemove(recs, idx), Reindex(recs, byCmd, idx)) == ByNumber(recs, byCmd) - {recs[idx].cmd}
  {
    SwapRemoveInverse(recs, byCmd, idx);
    var last := |recs| - 1;
    var byCmd' := Reindex(recs, byCmd, idx);
    assert recs[last].cmd in byCmd && byCmd[recs[last].cmd] == last;
    assert byCmd'.Keys == byCmd.Keys - {recs[idx].cmd};
    forall k | k in byCmd' ensures SwapRemove(recs, idx)[byCmd'[k]] == recs[byCmd[k]] {
      if k != recs[last].cmd {
        assert byCmd[k] != last;
      }
    }
  }

  lemma SwapRemoveStored(p: Pool, recs: seq<Rec>, byCmd: map<nat, nat>, m: map<string, Summary>, idx: nat)
    requires Stored(p, recs, byCmd, m) && idx < |recs| && recs[idx].cmd < |p.strs|
    ensures Stored(p, SwapRemove(recs, idx), Reindex(recs, byCmd, idx), m - {p.strs[recs[idx].cmd]})
  {
    SwapRemoveNumber(recs, byCmd, idx);
    DropSummary(p, ByNumber(recs, byCmd), m, recs[idx].cmd);
  }

  // ---- Strings in use ----

  function RefsOf(r: Rec): set<nat> {
    {r.cmd, r.cwd, r.device, r.session}
  }

  /** The numbers some record refers to. */
  function Refs(recs: seq<Rec>): set<nat> {
    if recs == [] then {} else Refs(recs[..|recs| - 1]) + RefsOf(recs[|recs| - 1])
  }

  /** The first `n` numbers. */
  function Below(n: nat): set<nat> {
    if n == 0 then {} else Below(n - 1) + {n - 1}
  }

  lemma {:induction false} BelowSize(n: nat)
    ensures |Below(n)| == n && forall i: nat :: i in Below(n) <==> i < n
    decreases n
  {
    if n > 0 {
      BelowSize(n - 1);
    }
  }

  /** Two records, each with its own pool, that show the same strings. */
  ghost predicate SameRec(p: Pool, r: Rec, p': Pool, r': Rec) {
    && RecIn(p, r) && RecIn(p', r')
    && p.strs[r.cmd] == p'.strs[r'.cmd] && SummaryOf(p, r) == SummaryOf(p', r')
  }

  ghost predicate SameRecs(p: Pool, recs: seq<Rec>, p': Pool, recs': seq<Rec>) {
    |recs| == |recs'| && forall i :: 0 <= i < |recs| ==> SameRec(p, recs[i], p', recs'[i])
  }

  ghost predicate SameIds(p: Pool, idToCmd: map<string, nat>, p': Pool, idToCmd': map<string, nat>) {
    && idToCmd'.Keys == idToCmd.Keys
    && forall id :: id in idToCmd ==>
                      idToCmd[id] < |p.strs| && idToCmd'[id] < |p'.strs| && p'.strs[idToCmd'[id]] == p.strs[idToCmd[id]]
  }

  /** Renumbering that keeps every visible string keeps the view. */
  lemma RenumberStored(p: Pool, recs: seq<Rec>, byCmd: map<nat, nat>, m: map<string, Summary>,
                       p': Pool, recs': seq<Rec>, byCmd': map<nat, nat>)
    requires Stored(p, recs, byCmd, m) && PoolOk(p') && SameRecs(p, recs, p', recs') && Inverse(recs', byCmd')
    ensures Stored(p', recs', byCmd', m)
  {
    var b, b' := ByNumber(recs, byCmd), ByNumber(recs', byCmd');
    forall k | k in b' ensures RecIn(p', b'[k]) && p'.strs[k] in m && m[p'.strs[k]] == SummaryOf(p', b'[k]) {
      var i := byCmd'[k];
      assert SameRec(p, recs[i], p', recs'[i]);
      assert b[recs[i].cmd] == recs[i];
    }
    forall c | c in m ensures c in p'.nums && p'.nums[c] in b' {
      var i := byCmd[p.nums[c]];
      assert SameRec(p, recs[i], p', recs'[i]);
      assert p'.strs[recs'[i].cmd] == c;
    }
  }

  // ---- Whole operations on the stored data ----

  /** The stored data shows the view, and the view is sound. */
  ghost predicate Holds(p: Pool, recs: seq<Rec>, byCmd: map<nat, nat>, idToCmd: map<string, nat>, v: View) {
    Stored(p, recs, byCmd, v.recs) && IdsLead(idToCmd, byCmd) && ShowsIds(p, idToCmd, v.ids) && Sound(v)
  }

  lemma GrowHolds(p: Pool, p': Pool, recs: seq<Rec>, byCmd: map<nat, nat>, idToCmd: map<string, nat>, v: View)
    requires Holds(p, recs, byCmd, idToCmd, v) && Extends(p, p') && PoolOk(p')
    ensures Holds(p', recs, byCmd, idToCmd, v)
  {
    GrowSummarizes(p, p', ByNumber(recs, byCmd), v.recs);
    GrowIds(p, p', idToCmd, v.ids);
  }

  lemma PointId(p: Pool, byCmd: map<nat, nat>, idToCmd: map<string, nat>, ids: map<string, string>, id: string, c: nat)
    requires IdsLead(idToCmd, byCmd) && ShowsIds(p, idToCmd, ids) && c < |p.strs| && c in byCmd
    ensures IdsLead(idToCmd[id := c], byCmd) && ShowsIds(p, idToCmd[id := c], ids[id := p.strs[c]])
  {
  }

  /** One more run of a command that has a record. */
  lemma CreateOnOld(p: Pool, recs: seq<Rec>, byCmd: map<nat, nat>, idToCmd: map<string, nat>, v: View, e: Entry, r: Rec)
    requires Holds(p, recs, byCmd, idToCmd, v) && !e.deleted && e.command != ""
    requires RecIn(p, r) && p.strs[r.cmd] == e.command && r.cmd in byCmd && RecIn(p, recs[byCmd[r.cmd]])
    requires SummaryOf(p, r) == AnotherRun(SummaryOf(p, recs[byCmd[r.cmd]]), e)
    ensures Holds(p, recs[byCmd[r.cmd] := r], byCmd, idToCmd[e.id := r.cmd], Create(v, e))
  {
    KnownCommand(p, recs, byCmd, v.recs, r.cmd);
    SetRec(p, recs, byCmd, v.recs, byCmd[r.cmd], r);
    PointId(p, byCmd, idToCmd, v.ids, e.id, r.cmd);
    CreateSound(v, e);
  }

  /** The first run of a command. */
  lemma CreateOnNew(p: Pool, recs: seq<Rec>, byCmd: map<nat, nat>, idToCmd: map<string, nat>, v: View, e: Entry, r: Rec)
    requires Holds(p, recs, byCmd, idToCmd, v) && !e.deleted && e.command != ""
    requires RecIn(p, r) && p.strs[r.cmd] == e.command && r.cmd !in byCmd
    requires SummaryOf(p, r) == FirstRun(e)
    ensures Holds(p, recs + [r], byCmd[r.cmd := |recs|], idToCmd[e.id := r.cmd], Create(v, e))
  {
    KnownCommand(p, recs, byCmd, v.recs, r.cmd);
    AddRec(p, recs, byCmd, v.recs, r);
    PointId(p, byCmd[r.cmd := |recs|], idToCmd, v.ids, e.id, r.cmd);
    CreateSound(v, e);
  }

  /** A run that is not the latest only raises the count. */
  lemma CreateOnOldEarlier(p: Pool, recs: seq<Rec>, byCmd: map<nat, nat>, idToCmd: map<string, nat>, v: View, e: Entry,
                           cmdID: nat, idx: nat, r: Rec)
    requires Holds(p, recs, byCmd, idToCmd, v) && !e.deleted && e.command != ""
    requires cmdID < |p.strs| && p.strs[cmdID] == e.command && cmdID in byCmd && idx == byCmd[cmdID]
    requires e.start < recs[idx].lastStart && r == recs[idx].(freq := recs[idx].freq + 1)
    ensures Holds(p, recs[idx := r], byCmd, idToCmd[e.id := cmdID], Create(v, e))
  {
    KnownCommand(p, recs, byCmd, v.recs, cmdID);
    CreateOnOld(p, recs, byCmd, idToCmd, v, e, r);
  }

  lemma CreateOnOldLatest(p: Pool, recs: seq<Rec>, byCmd: map<nat, nat>, idToCmd: map<string, nat>, v: View, e: Entry,
                          cmdID: nat, idx: nat, r: Rec)
    requires Holds(p, recs, byCmd, idToCmd, v) && !e.deleted && e.command != ""
    requires r.cmd == cmdID && RecIn(p, r) && p.strs[cmdID] == e.command && cmdID in byCmd && idx == byCmd[cmdID]
    requires e.start >= recs[idx].lastStart
    requires SummaryOf(p, r) == Summary(e.cwd, e.device, e.session, e.start, DurationOf(e), ExitOf(e), recs[idx].freq + 1)
    ensures Holds(p, recs[idx := r], byCmd, idToCmd[e.id := cmdID], Create(v, e))
  {
    KnownCommand(p, recs, byCmd, v.recs, r.cmd);
    CreateOnOld(p, recs, byCmd, idToCmd, v, e, r);
  }

  lemma CompleteHolds(p: Pool, recs: seq<Rec>, byCmd: map<nat, nat>, idToCmd: map<string, nat>, v: View, c: Completion, idx: nat, r: Rec)
    requires Holds(p, recs, byCmd, idToCmd, v) && c.id in idToCmd && idx == byCmd[idToCmd[c.id]]
    requires r == recs[idx].(lastExit := c.exit, lastDuration := CompletedDuration(recs[idx].lastStart, c.end))
    ensures Holds(p, recs[idx := r], byCmd, idToCmd, Complete(v, c))
  {
    LedTo(p, recs, byCmd, idToCmd, v, c.id);
    SetRec(p, recs, byCmd, v.recs, idx, r);
    CompleteSound(v, c);
  }

  lemma ReindexKeys(recs: seq<Rec>, byCmd: map<nat, nat>, idx: nat)
    requires Inverse(recs, byCmd) && idx < |recs|
    ensures Reindex(recs, byCmd, idx).Keys == byCmd.Keys - {recs[idx].cmd}
  {
    assert recs[|recs| - 1].cmd in byCmd;
  }

  lemma ForgetId(p: Pool, byCmd: map<nat, nat>, idToCmd: map<string, nat>, ids: map<string, string>, id: string)
    requires IdsLead(idToCmd, byCmd) && ShowsIds(p, idToCmd, ids)
    ensures IdsLead(idToCmd - {id}, byCmd) && ShowsIds(p, idToCmd - {id}, ids - {id})
  {
  }

  /** What the view knows of the command an id leads to. */
  lemma LedTo(p: Pool, recs: seq<Rec>, byCmd: map<nat, nat>, idToCmd: map<string, nat>, v: View, id: string)
    requires Holds(p, recs, byCmd, idToCmd, v) && id in idToCmd
    ensures id in v.ids && idToCmd[id] < |p.strs| && p.strs[idToCmd[id]] == v.ids[id] && v.ids[id] in v.recs
    ensures var r := recs[byCmd[idToCmd[id]]];
            r.cmd == idToCmd[id] && RecIn(p, r) && SummaryOf(p, r) == v.recs[v.ids[id]]
  {
    KnownCommand(p, recs, byCmd, v.recs, idToCmd[id]);
  }

  /** An id goes, and its command counts one run fewer. */
  lemma BuryMany(p: Pool, recs: seq<Rec>, byCmd: map<nat, nat>, idToCmd: map<string, nat>, v: View, id: string, idx: nat, r: Rec)
    requires Holds(p, recs, byCmd, idToCmd, v) && id in idToCmd && idx == byCmd[idToCmd[id]]
    requires r == recs[idx].(freq := recs[idx].freq - 1) && r.freq > 0
    ensures Holds(p, recs[idx := r], byCmd, idToCmd - {id}, Bury(v, id))
  {
    LedTo(p, recs, byCmd, idToCmd, v, id);
    assert Bury(v, id).recs == v.recs[p.strs[r.cmd] := SummaryOf(p, r)];
    SetRec(p, recs, byCmd, v.recs, idx, r);
    ForgetId(p, byCmd, idToCmd, v.ids, id);
    BurySound(v, id);
  }

  lemma OnlyId(ids: map<string, string>, id: string, id': string)
    requires id in ids && id' in ids && ids[id'] == ids[id] && |IdsOf(ids, ids[id])| <= 1
    ensures id == id'
  {
    SubsetSize({id, id'}, IdsOf(ids, ids[id]));
  }

  lemma NobodyLeft(p: Pool, recs: seq<Rec>, byCmd: map<nat, nat>, idToCmd: map<string, nat>, v: View, id: string)
    requires Holds(p, recs, byCmd, idToCmd, v) && id in idToCmd && recs[byCmd[idToCmd[id]]].freq - 1 <= 0
    ensures forall id' :: id' in idToCmd && id' != id ==> idToCmd[id'] != idToCmd[id]
  {
    LedTo(p, recs, byCmd, idToCmd, v, id);
    forall id' | id' in idToCmd && id' != id ensures idToCmd[id'] != idToCmd[id] {
      if idToCmd[id'] == idToCmd[id] {
        OnlyId(v.ids, id, id');
      }
    }
  }

  lemma LeadAway(byCmd: map<nat, nat>, byCmd': map<nat, nat>, idToCmd: map<string, nat>, id: string)
    requires IdsLead(idToCmd, byCmd) && id in idToCmd && byCmd'.Keys == byCmd.Keys - {idToCmd[id]}
    requires forall id' :: id' in idToCmd && id' != id ==> idToCmd[id'] != idToCmd[id]
    ensures IdsLead(idToCmd - {id}, byCmd')
  {
  }

  /** The last id of a command takes the record with it. */
  lemma BuryLast(p: Pool, recs: seq<Rec>, byCmd: map<nat, nat>, idToCmd: map<string, nat>, v: View, id: string, idx: nat)
    requires Holds(p, recs, byCmd, idToCmd, v) && id in idToCmd && idx == byCmd[idToCmd[id]]
    requires recs[idx].freq - 1 <= 0
    ensures Holds(p, SwapRemove(recs, idx), Reindex(recs, byCmd, idx), idToCmd - {id}, Bury(v, id))
  {
    BuryLastRec(p, recs, byCmd, idToCmd, v, id, idx);
    BuryLastId(p, recs, byCmd, idToCmd, v, id, idx);
    BurySound(v, id);
  }

  lemma BuryLastRec(p: Pool, recs: seq<Rec>, byCmd: map<nat, nat>, idToCmd: map<string, nat>, v: View, id: string, idx: nat)
    requires Holds(p, recs, byCmd, idToCmd, v) && id in idToCmd && idx == byCmd[idToCmd[id]]
    requires recs[idx].freq - 1 <= 0
    ensures Stored(p, SwapRemove(recs, idx), Reindex(recs, byCmd, idx), Bury(v, id).recs)
  {
    LedTo(p, recs, byCmd, idToCmd, v, id);
    SwapRemoveStored(p, recs, byCmd, v.recs, idx);
  }

  lemma BuryLastId(p: Pool, recs: seq<Rec>, byCmd: map<nat, nat>, idToCmd: map<string, nat>, v: View, id: string, idx: nat)
    requires Holds(p, recs, byCmd, idToCmd, v) && id in idToCmd && idx == byCmd[idToCmd[id]]
    requires recs[idx].freq - 1 <= 0
    ensures IdsLead(idToCmd - {id}, Reindex(recs, byCmd, idx)) && ShowsIds(p, idToCmd - {id}, Bury(v, id).ids)
  {
    LedTo(p, recs, byCmd, idToCmd, v, id);
    NobodyLeft(p, recs, byCmd, idToCmd, v, id);
    ReindexKeys(recs, byCmd, idx);
    LeadAway(byCmd, Reindex(recs, byCmd, idx), idToCmd, id);
    ForgetId(p, byCmd, idToCmd, v.ids, id);
  }

  lemma BuryCommandHolds(p: Pool, recs: seq<Rec>, byCmd: map<nat, nat>, idToCmd: map<string, nat>, v: View, k: nat)
    requires Holds(p, recs, byCmd, idToCmd, v) && k in byCmd && k < |p.strs|
    ensures Holds(p, SwapRemove(recs, byCmd[k]), Reindex(recs, byCmd, byCmd[k]),
                  map id | id in idToCmd && idToCmd[id] != k :: idToCmd[id], BuryCommand(v, p.strs[k]))
  {
    KnownCommand(p, recs, byCmd, v.recs, k);
    SwapRemoveStored(p, recs, byCmd, v.recs, byCmd[k]);
    ReindexKeys(recs, byCmd, byCmd[k]);
    BuryCommandSound(v, p.strs[k]);
    DropCommandIds(p, byCmd, idToCmd, v.ids, k);
  }

  lemma DropCommandIds(p: Pool, byCmd: map<nat, nat>, idToCmd: map<string, nat>, ids: map<string, string>, k: nat)
    requires PoolOk(p) && IdsLead(idToCmd, byCmd) && ShowsIds(p, idToCmd, ids) && k < |p.strs|
    ensures ShowsIds(p, map id | id in idToCmd && idToCmd[id] != k :: idToCmd[id],
                     map id | id in ids && ids[id] != p.strs[k] :: ids[id])
  {
    forall id | id in idToCmd ensures idToCmd[id] != k <==> ids[id] != p.strs[k] {
      if idToCmd[id] != k { DistinctStrings(p, idToCmd[id], k); }
    }
  }
}
