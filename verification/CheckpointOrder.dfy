/** Which of two checkpoints to keep, and the head of the sorted list. */
module CheckpointOrder {
  import opened Base
  import opened ByteOrder
  import opened Frontiers

  datatype Manifest = Manifest(id: string, createdAt: int, frontier: Frontier)

  /** Strict dominance decides; else the larger sum, the later time, the greater id. */
  ghost predicate Better(a: Manifest, b: Manifest) {
    var aDom, bDom := Dominates(a.frontier, b.frontier), Dominates(b.frontier, a.frontier);
    if aDom && !bDom then true
    else if bDom && !aDom then false
    else if Score(a.frontier) != Score(b.frontier) then Score(a.frontier) > Score(b.frontier)
    else if a.createdAt != b.createdAt then a.createdAt > b.createdAt
    else Less(b.id, a.id)
  }

  method BetterCheckpoint(a: Manifest, b: Manifest) returns (r: bool)
    ensures r <==> Better(a, b)
  {
    var aDom := DominatesLoop(a.frontier, b.frontier);
    var bDom := DominatesLoop(b.frontier, a.frontier);
    if aDom && !bDom {
      return true;
    }
    if bDom && !aDom {
      return false;
    }
    var sa := ScoreLoop(a.frontier);
    var sb := ScoreLoop(b.frontier);
    if sa != sb {
      return sa > sb;
    }
    if a.createdAt != b.createdAt {
      return a.createdAt > b.createdAt;
    }
    r := Less(b.id, a.id);
  }

  /** Reference: the lexicographic order of sum, time and id. */
  ghost predicate Higher(a: Manifest, b: Manifest) {
    || Score(a.frontier) > Score(b.frontier)
    || (Score(a.frontier) == Score(b.frontier)
        && (a.createdAt > b.createdAt || (a.createdAt == b.createdAt && Less(b.id, a.id))))
  }

  ghost predicate Comparable(a: Manifest, b: Manifest) {
    Dominates(a.frontier, b.frontier) || Dominates(b.frontier, a.frontier)
  }

  ghost predicate Proper(m: Manifest) {
    NonNegative(m.frontier)
  }

  /** On non-negative frontiers the dominance tests change nothing: the order is lexicographic. */
  lemma BetterIsLexicographic(a: Manifest, b: Manifest)
    requires Proper(a) && Proper(b)
    ensures Better(a, b) <==> Higher(a, b)
  {
    if Dominates(a.frontier, b.frontier) { DominanceRaisesScore(a.frontier, b.frontier); }
    if Dominates(b.frontier, a.frontier) { DominanceRaisesScore(b.frontier, a.frontier); }
  }

  /** Hence a strict order, total on manifests with different ids. */
  lemma BetterIsStrictOrder(a: Manifest, b: Manifest, c: Manifest)
    requires Proper(a) && Proper(b) && Proper(c)
    ensures !Better(a, a)
    ensures Better(a, b) && Better(b, c) ==> Better(a, c)
    ensures a.id != b.id ==> Better(a, b) || Better(b, a)
    ensures !(Better(a, b) && Better(b, a))
  {
    BetterIsLexicographic(a, a);
    BetterIsLexicographic(a, b);
    BetterIsLexicographic(b, a);
    BetterIsLexicographic(b, c);
    BetterIsLexicographic(a, c);
    Irreflexive(a.id);
    Total(a.id, b.id);
    if Less(b.id, a.id) { Asymmetric(b.id, a.id); }
    if Less(b.id, a.id) && Less(c.id, b.id) { Transitive(c.id, b.id, a.id); }
  }

  /** A negative sequence number breaks it: dominance and the sum then disagree (see `PreferenceFollowsRankIff`). */
  lemma NegativeBreaksTheOrder()
    ensures exists a: Manifest, b: Manifest :: Better(a, b) && Higher(b, a)
  {
    var f: Frontier := map["x" := 1, "y" := -5];
    var a, b := Manifest("a", 0, f), Manifest("b", 0, map[]);
    SumRemove(f, {"x", "y"}, "x");
    assert {"x", "y"} - {"x"} == {"y"};
    SumRemove(f, {"y"}, "y");
    assert f.Keys == {"x", "y"};
    assert SumAt(f, {"y"} - {"y"}) == 0;
    assert Score(f) == -4 && Score(b.frontier) == 0;
    assert "x" in f && At(b.frontier, "x") < f["x"];
    assert Better(a, b) && Higher(b, a);
  }

  /** Nothing that `a` is preferred to ranks higher, if and only if `a` has no negative number or names one device only. */
  lemma PreferenceFollowsRankIff(a: Manifest)
    ensures (forall b: Manifest :: Better(a, b) ==> !Higher(b, a)) <==> Proper(a) || |a.frontier.Keys| == 1
  {
    SumFollowsIff(a.frontier);
    if Proper(a) || |a.frontier.Keys| == 1 {
      forall b: Manifest | Better(a, b) ensures !Higher(b, a) {
        if Less(b.id, a.id) { Asymmetric(b.id, a.id); }
      }
    } else {
      var f := OutranksItsBetter(a.frontier);
      var b := Manifest(a.id, a.createdAt + 1, f);
      assert Better(a, b) && Higher(b, a);
    }
  }

  // ---- The sorted list ----

  ghost predicate AllProper(ms: seq<Manifest>) {
    forall i :: 0 <= i < |ms| ==> Proper(ms[i])
  }

  ghost predicate BestFirst(ms: seq<Manifest>) {
    forall i, j :: 0 <= i < j < |ms| ==> !Better(ms[j], ms[i])
  }

  lemma NotBetterTransitive(a: Manifest, b: Manifest, c: Manifest)
    requires Proper(a) && Proper(b) && Proper(c) && !Better(b, a) && !Better(c, b)
    ensures !Better(c, a)
  {
    BetterIsLexicographic(b, a);
    BetterIsLexicographic(c, b);
    BetterIsLexicographic(c, a);
    if c.createdAt == a.createdAt && Less(a.id, c.id) {
      Total(a.id, b.id);
      if Less(b.id, a.id) { Transitive(b.id, a.id, c.id); }
    }
  }

  lemma InsertBest(ms: seq<Manifest>, m: Manifest, k: nat)
    requires BestFirst(ms) && k <= |ms|
    requires forall i :: 0 <= i < k ==> !Better(m, ms[i])
    requires forall i :: k <= i < |ms| ==> !Better(ms[i], m)
    ensures BestFirst(ms[..k] + [m] + ms[k..])
  {
    var ms' := ms[..k] + [m] + ms[k..];
    assert forall i :: 0 <= i < |ms'| ==> ms'[i] == if i < k then ms[i] else if i == k then m else ms[i - 1];
  }

  method Place(ms: seq<Manifest>, m: Manifest) returns (k: nat)
    ensures k <= |ms|
    ensures AllProper(ms) && Proper(m) && BestFirst(ms) ==> BestFirst(ms[..k] + [m] + ms[k..])
  {
    k := |ms|;
    ghost var ok := AllProper(ms) && Proper(m) && BestFirst(ms);
    while k > 0
      invariant k <= |ms|
      invariant ok ==> forall i :: k <= i < |ms| ==> !Better(ms[i], m)
    {
      var ahead := BetterCheckpoint(m, ms[k - 1]);
      if !ahead {
        break;
      }
      if ok { BetterIsStrictOrder(m, ms[k - 1], m); }
      k := k - 1;
    }
    if ok {
      forall i | 0 <= i < k ensures !Better(m, ms[i]) {
        if i < k - 1 { NotBetterTransitive(ms[i], ms[k - 1], m); }
      }
      InsertBest(ms, m, k);
    }
  }

  lemma SortStep(done: seq<Manifest>, ms: seq<Manifest>, m: Manifest, k: nat)
    requires multiset(ms) == multiset(done) && k <= |ms|
    ensures multiset(ms[..k] + [m] + ms[k..]) == multiset(done + [m])
    ensures AllProper(done) ==> AllProper(ms)
  {
    assert ms == ms[..k] + ms[k..];
    if AllProper(done) {
      forall i | 0 <= i < |ms| ensures Proper(ms[i]) {
        assert ms[i] in multiset(done);
      }
    }
  }

  method SortCheckpoints(all: seq<Manifest>) returns (ms: seq<Manifest>)
    ensures multiset(ms) == multiset(all)
    ensures AllProper(all) ==> BestFirst(ms)
  {
    ms := [];
    for n := 0 to |all|
      invariant multiset(ms) == multiset(all[..n])
      invariant AllProper(all) ==> BestFirst(ms)
    {
      var k := Place(ms, all[n]);
      TakeSnoc(all, n);
      SortStep(all[..n], ms, all[n], k);
      ms := ms[..k] + [all[n]] + ms[k..];
    }
    TakeAll(all);
  }

  /** No checkpoint strictly dominates the head of the sorted list, so a comparable one is dominated by it. */
  lemma HeadIsUndominated(ms: seq<Manifest>, j: nat)
    requires BestFirst(ms) && j < |ms|
    ensures Dominates(ms[j].frontier, ms[0].frontier) ==> Dominates(ms[0].frontier, ms[j].frontier)
    ensures Comparable(ms[j], ms[0]) ==> Dominates(ms[0].frontier, ms[j].frontier)
  {
    if j > 0 { assert !Better(ms[j], ms[0]); }
  }
}
