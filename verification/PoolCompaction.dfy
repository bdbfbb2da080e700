/** Rebuilding the string pool so that it holds only strings still in use. */
module PoolCompaction {
  import opened CacheSpec
  import opened CacheRep

  /** `m` remembers the new numbers already given to old ones. */
  ghost predicate Remaps(p: Pool, next: Pool, m: map<nat, nat>) {
    PoolOk(next) && forall o :: o in m ==> o < |p.strs| && m[o] < |next.strs| && next.strs[m[o]] == p.strs[o]
  }

  /** `id` is the number of `s` in `p'`, which is `p` with `s` in it. */
  ghost predicate Numbers(p: Pool, p': Pool, id: nat, s: string) {
    && PoolOk(p') && Extends(p, p') && id < |p'.strs| && p'.strs[id] == s
    && Below(|p'.strs|) == Below(|p.strs|) + {id}
    && (s in p.nums ==> p' == p)
  }

  lemma InternNumbers(p: Pool, s: string)
    requires PoolOk(p)
    ensures Numbers(p, Intern(p, s).0, Intern(p, s).1, s)
  {
    BelowSize(|p.strs|);
  }

  lemma KnownNumbers(p: Pool, id: nat)
    requires PoolOk(p) && id < |p.strs|
    ensures Numbers(p, p, id, p.strs[id])
  {
    BelowSize(|p.strs|);
  }

  method Remap(p: Pool, next: Pool, m: map<nat, nat>, num: nat) returns (next': Pool, m': map<nat, nat>, id: nat)
    requires Remaps(p, next, m) && num < |p.strs|
    ensures Remaps(p, next', m') && Numbers(next, next', id, p.strs[num])
  {
    if num in m {
      next', m', id := next, m, m[num];
      KnownNumbers(next, id);
    } else {
      InternNumbers(next, p.strs[num]);
      var (next'', id') := Intern(next, p.strs[num]);
      next', id := next'', id';
      m' := m[num := id];
    }
  }

  lemma FourMore(a: set<nat>, b: set<nat>, c: set<nat>, d: set<nat>, e: set<nat>, r: Rec)
    requires b == a + {r.cmd} && c == b + {r.cwd} && d == c + {r.device} && e == d + {r.session}
    ensures e == a + RefsOf(r)
  {
  }

  lemma NumbersExtend(p0: Pool, p1: Pool, p2: Pool, p3: Pool, p4: Pool)
    requires Extends(p0, p1) && Extends(p1, p2) && Extends(p2, p3) && Extends(p3, p4)
    ensures Extends(p0, p4) && Extends(p1, p4) && Extends(p2, p4)
  {
    ExtendsTwice(p2, p3, p4);
    ExtendsTwice(p1, p2, p4);
    ExtendsTwice(p0, p1, p4);
  }

  lemma FourBelow(p0: Pool, p1: Pool, p2: Pool, p3: Pool, p4: Pool, p: Pool, r: Rec, r': Rec)
    requires RecIn(p, r)
    requires Numbers(p0, p1, r'.cmd, p.strs[r.cmd]) && Numbers(p1, p2, r'.cwd, p.strs[r.cwd])
    requires Numbers(p2, p3, r'.device, p.strs[r.device]) && Numbers(p3, p4, r'.session, p.strs[r.session])
    ensures Below(|p4.strs|) == Below(|p0.strs|) + RefsOf(r')
  {
    FourMore(Below(|p0.strs|), Below(|p1.strs|), Below(|p2.strs|), Below(|p3.strs|), Below(|p4.strs|), r');
  }

  lemma FourStrings(p1: Pool, p2: Pool, p3: Pool, p4: Pool, p: Pool, r: Rec, r': Rec)
    requires RecIn(p, r) && r' == r.(cmd := r'.cmd, cwd := r'.cwd, device := r'.device, session := r'.session)
    requires p1.strs <= p4.strs && p2.strs <= p4.strs && p3.strs <= p4.strs
    requires r'.cmd < |p1.strs| && r'.cwd < |p2.strs| && r'.device < |p3.strs| && r'.session < |p4.strs|
    requires p1.strs[r'.cmd] == p.strs[r.cmd] && p2.strs[r'.cwd] == p.strs[r.cwd]
    requires p3.strs[r'.device] == p.strs[r.device] && p4.strs[r'.session] == p.strs[r.session]
    ensures SameRec(p, r, p4, r')
  {
  }

  /** Four strings numbered one after the other. */
  lemma NumbersFour(p0: Pool, p1: Pool, p2: Pool, p3: Pool, p4: Pool, p: Pool, r: Rec, r': Rec)
    requires RecIn(p, r) && r' == r.(cmd := r'.cmd, cwd := r'.cwd, device := r'.device, session := r'.session)
    requires Numbers(p0, p1, r'.cmd, p.strs[r.cmd]) && Numbers(p1, p2, r'.cwd, p.strs[r.cwd])
    requires Numbers(p2, p3, r'.device, p.strs[r.device]) && Numbers(p3, p4, r'.session, p.strs[r.session])
    ensures Extends(p0, p4) && SameRec(p, r, p4, r')
    ensures Below(|p4.strs|) == Below(|p0.strs|) + RefsOf(r')
  {
    NumbersExtend(p0, p1, p2, p3, p4);
    FourBelow(p0, p1, p2, p3, p4, p, r, r');
    FourStrings(p1, p2, p3, p4, p, r, r');
  }

  lemma ExtendsTwice(a: Pool, b: Pool, c: Pool)
    requires Extends(a, b) && Extends(b, c)
    ensures Extends(a, c)
  {
  }

  method RemapRec(p: Pool, next: Pool, m: map<nat, nat>, r: Rec) returns (next': Pool, m': map<nat, nat>, r': Rec)
    requires Remaps(p, next, m) && RecIn(p, r)
    ensures Remaps(p, next', m') && Extends(next, next') && SameRec(p, r, next', r')
    ensures Below(|next'.strs|) == Below(|next.strs|) + RefsOf(r')
  {
    var n1, m1, cmd := Remap(p, next, m, r.cmd);
    var n2, m2, cwd := Remap(p, n1, m1, r.cwd);
    var n3, m3, device := Remap(p, n2, m2, r.device);
    var n4, m4, session := Remap(p, n3, m3, r.session);
    next', m', r' := n4, m4, r.(cmd := cmd, cwd := cwd, device := device, session := session);
    NumbersFour(next, n1, n2, n3, n4, p, r, r');
  }

  lemma GrowSameRecs(p: Pool, recs: seq<Rec>, next: Pool, recs': seq<Rec>, next': Pool)
    requires SameRecs(p, recs, next, recs') && Extends(next, next')
    ensures SameRecs(p, recs, next', recs')
  {
    forall i | 0 <= i < |recs| ensures SameRec(p, recs[i], next', recs'[i]) {
      assert SameRec(p, recs[i], next, recs'[i]);
    }
  }

  /** A renumbered record has a command number of its own. */
  lemma NewNumberIsNew(p: Pool, recs: seq<Rec>, byCmd: map<nat, nat>, n: nat, next: Pool, recs': seq<Rec>, r': Rec)
    requires PoolOk(p) && Inverse(recs, byCmd) && n < |recs|
    requires SameRecs(p, recs[..n], next, recs') && SameRec(p, recs[n], next, r')
    ensures forall j :: 0 <= j < n ==> recs'[j].cmd != r'.cmd
  {
    forall j | 0 <= j < n ensures recs'[j].cmd != r'.cmd {
      assert SameRec(p, recs[..n][j], next, recs'[j]);
      assert byCmd[recs[j].cmd] == j && byCmd[recs[n].cmd] == n;
    }
  }

  /** The first records, renumbered; the new pool holds exactly the strings they use. */
  ghost predicate Renumbered(p: Pool, recs: seq<Rec>, next: Pool, recs': seq<Rec>, byCmd': map<nat, nat>) {
    && SameRecs(p, recs, next, recs') && Inverse(recs', byCmd')
    && Below(|next.strs|) == Refs(recs')
  }

  lemma RenumberedSnoc(p: Pool, recs: seq<Rec>, next: Pool, recs': seq<Rec>, byCmd': map<nat, nat>, next': Pool, r: Rec, r': Rec)
    requires Renumbered(p, recs, next, recs', byCmd') && Extends(next, next') && SameRec(p, r, next', r')
    requires r'.cmd !in byCmd' && Below(|next'.strs|) == Below(|next.strs|) + RefsOf(r')
    ensures Renumbered(p, recs + [r], next', recs' + [r'], byCmd'[r'.cmd := |recs'|])
  {
    GrowSameRecs(p, recs, next, recs', next');
    AddNumber(recs', byCmd', r');
  }

  lemma RenumberedStep(p: Pool, recs: seq<Rec>, byCmd: map<nat, nat>, n: nat, next: Pool, recs': seq<Rec>,
                       byCmd': map<nat, nat>, next': Pool, r': Rec)
    requires PoolOk(p) && Inverse(recs, byCmd) && n < |recs| && Renumbered(p, recs[..n], next, recs', byCmd')
    requires Extends(next, next') && SameRec(p, recs[n], next', r')
    requires Below(|next'.strs|) == Below(|next.strs|) + RefsOf(r')
    ensures Renumbered(p, recs[..n + 1], next', recs' + [r'], byCmd'[r'.cmd := n])
  {
    GrowSameRecs(p, recs[..n], next, recs', next');
    NewNumberIsNew(p, recs, byCmd, n, next', recs', r');
    RenumberedSnoc(p, recs[..n], next, recs', byCmd', next', recs[n], r');
    assert recs[..n + 1] == recs[..n] + [recs[n]];
  }

  method RemapRecs(p: Pool, recs: seq<Rec>, ghost byCmd: map<nat, nat>)
    returns (next: Pool, m: map<nat, nat>, recs': seq<Rec>, byCmd': map<nat, nat>)
    requires PoolOk(p) && AllIn(p, recs) && Inverse(recs, byCmd)
    ensures Remaps(p, next, m) && Renumbered(p, recs, next, recs', byCmd')
  {
    next, m, recs', byCmd' := Pool([], map[]), map[], [], map[];
    for i := 0 to |recs|
      invariant Remaps(p, next, m) && Renumbered(p, recs[..i], next, recs', byCmd')
    {
      var next', m', r' := RemapRec(p, next, m, recs[i]);
      RenumberedStep(p, recs, byCmd, i, next, recs', byCmd', next', r');
      next, m, byCmd', recs' := next', m', byCmd'[r'.cmd := i], recs' + [r'];
    }
    assert recs[..|recs|] == recs;
  }

  /** A command that is on record needs no new string. */
  lemma CommandIsThere(p: Pool, recs: seq<Rec>, byCmd: map<nat, nat>, next: Pool, recs': seq<Rec>, c: nat)
    requires Inverse(recs, byCmd) && SameRecs(p, recs, next, recs') && PoolOk(next) && c in byCmd && c < |p.strs|
    ensures p.strs[c] in next.nums
  {
    assert SameRec(p, recs[byCmd[c]], next, recs'[byCmd[c]]);
  }

  /** The ids outside `todo` lead to the same commands as before. */
  ghost predicate IdsDone(p: Pool, idToCmd: map<string, nat>, next: Pool, idToCmd': map<string, nat>, todo: set<string>) {
    && todo <= idToCmd.Keys && idToCmd'.Keys == idToCmd.Keys - todo
    && forall id :: id in idToCmd' ==>
                      idToCmd[id] < |p.strs| && idToCmd'[id] < |next.strs| && next.strs[idToCmd'[id]] == p.strs[idToCmd[id]]
  }

  method RemapIds(p: Pool, idToCmd: map<string, nat>, next: Pool, m: map<nat, nat>)
    returns (next': Pool, idToCmd': map<string, nat>)
    requires Remaps(p, next, m)
    requires forall id :: id in idToCmd ==> idToCmd[id] < |p.strs| && p.strs[idToCmd[id]] in next.nums
    ensures next' == next && SameIds(p, idToCmd, next, idToCmd')
  {
    next', idToCmd' := next, map[];
    var m', todo := m, idToCmd.Keys;
    while todo != {}
      invariant IdsDone(p, idToCmd, next, idToCmd', todo)
      invariant next' == next && Remaps(p, next, m')
    {
      var id :| id in todo;
      var n;
      next', m', n := Remap(p, next', m', idToCmd[id]);
      idToCmd' := idToCmd'[id := n];
      todo := todo - {id};
    }
  }

  /** Compaction shows the same view, and the new pool holds exactly the strings the records use. */
  method CompactPool(p: Pool, recs: seq<Rec>, ghost byCmd: map<nat, nat>, idToCmd: map<string, nat>, ghost v: View)
    returns (p': Pool, recs': seq<Rec>, byCmd': map<nat, nat>, idToCmd': map<string, nat>)
    requires Holds(p, recs, byCmd, idToCmd, v)
    ensures Holds(p', recs', byCmd', idToCmd', v)
    ensures SameRecs(p, recs, p', recs')
    ensures |p'.strs| == |Refs(recs')|
  {
    StoredAllIn(p, recs, byCmd, v.recs);
    var next, m;
    next, m, recs', byCmd' := RemapRecs(p, recs, byCmd);
    forall id | id in idToCmd ensures p.strs[idToCmd[id]] in next.nums {
      CommandIsThere(p, recs, byCmd, next, recs', idToCmd[id]);
    }
    p', idToCmd' := RemapIds(p, idToCmd, next, m);
    RenumberStored(p, recs, byCmd, v.recs, p', recs', byCmd');
    BelowSize(|p'.strs|);
  }

  /** How many strings the records use. */
  method CountReferenced(recs: seq<Rec>) returns (n: nat)
    ensures n == |Refs(recs)|
  {
    var seen: set<nat> := {};
    for i := 0 to |recs|
      invariant seen == Refs(recs[..i])
    {
      assert recs[..i + 1] == recs[..i] + [recs[i]];
      seen := seen + {recs[i].cmd};
      seen := seen + {recs[i].cwd};
      seen := seen + {recs[i].device};
      seen := seen + {recs[i].session};
    }
    assert recs[..|recs|] == recs;
    n := |seen|;
  }
}
