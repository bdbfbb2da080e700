/** Fuzzy matching: the shortest window of a text that contains a term as a subsequence. */
module FuzzyMatch {

  /** The characters of `q` stand in `c` at these places, in order. */
  ghost predicate Embeds(q: string, c: string, at: seq<int>) {
    && |at| == |q|
    && (forall k :: 0 <= k < |at| ==> 0 <= at[k] < |c| && c[at[k]] == q[k])
    && (forall j, k :: 0 <= j < k < |at| ==> at[j] < at[k])
  }

  ghost predicate Occurs(q: string, c: string) {
    exists at :: Embeds(q, c, at)
  }

  ghost function Width(at: seq<int>): int {
    if at == [] then 0 else at[|at| - 1] - at[0] + 1
  }

  /** `w` is the width of the narrowest occurrence. */
  ghost predicate IsMinSpan(q: string, c: string, w: int) {
    && (exists at :: Embeds(q, c, at) && Width(at) == w)
    && (forall at :: Embeds(q, c, at) ==> w <= Width(at))
  }

  lemma {:induction false} StepsApart(q: string, c: string, at: seq<int>, k: nat)
    requires Embeds(q, c, at) && k < |at|
    ensures at[k] >= at[0] + k
    decreases k
  {
    if k > 0 { StepsApart(q, c, at, k - 1); }
  }

  /** No occurrence is narrower than the term. */
  lemma WidthAtLeast(q: string, c: string, at: seq<int>)
    requires Embeds(q, c, at)
    ensures Width(at) >= |q|
  {
    if at != [] { StepsApart(q, c, at, |at| - 1); }
  }

  /** Every occurrence that starts at `start` or later comes after the greedy places, and goes on at `i` or later. */
  ghost predicate Ahead(q: string, c: string, start: nat, greedy: seq<int>, i: nat)
    requires 1 <= |greedy| <= |q|
  {
    forall at :: Embeds(q, c, at) && at[0] >= start ==>
                   && (forall k :: 0 <= k < |greedy| ==> greedy[k] <= at[k])
                   && (|greedy| < |q| ==> at[|greedy|] >= i)
  }

  ghost predicate Greedy(q: string, c: string, start: nat, greedy: seq<int>, i: nat) {
    && 1 <= |greedy| <= |q| && greedy[0] == start && start < i <= |c|
    && (forall k :: 0 <= k < |greedy| ==> greedy[k] < i)
    && Embeds(q[..|greedy|], c, greedy) && Ahead(q, c, start, greedy, i)
  }

  lemma GreedyStart(q: string, c: string, start: nat)
    requires q != [] && start < |c| && c[start] == q[0]
    ensures Greedy(q, c, start, [start], start + 1)
  {
  }

  lemma GreedyTake(q: string, c: string, start: nat, greedy: seq<int>, i: nat)
    requires Greedy(q, c, start, greedy, i) && i < |c| && |greedy| < |q| && c[i] == q[|greedy|]
    ensures Greedy(q, c, start, greedy + [i], i + 1)
  {
  }

  lemma GreedySkip(q: string, c: string, start: nat, greedy: seq<int>, i: nat)
    requires Greedy(q, c, start, greedy, i) && i < |c| && |greedy| < |q| && c[i] != q[|greedy|]
    ensures Greedy(q, c, start, greedy, i + 1)
  {
  }

  /** From a start that fits, the greedy search finds the narrowest occurrence, or shows that none starts here or later. */
  method FromStart(q: string, c: string, start: nat) returns (end: nat, ok: bool)
    requires q != [] && start < |c| && c[start] == q[0]
    ensures ok ==> start <= end && exists at :: Embeds(q, c, at) && at[0] == start && Width(at) == end - start + 1
    ensures ok ==> forall at :: Embeds(q, c, at) && at[0] >= start ==> at[|at| - 1] >= end
    ensures !ok ==> forall at :: Embeds(q, c, at) ==> at[0] < start
  {
    ghost var greedy: seq<int> := [start];
    var qi := 1;
    end := start;
    GreedyStart(q, c, start);
    var i: nat := start + 1;
    while i < |c| && qi < |q|
      invariant Greedy(q, c, start, greedy, i) && qi == |greedy| && end == greedy[|greedy| - 1]
    {
      if c[i] == q[qi] {
        GreedyTake(q, c, start, greedy, i);
        greedy := greedy + [i];
        end := i;
        qi := qi + 1;
      } else {
        GreedySkip(q, c, start, greedy, i);
      }
      i := i + 1;
    }
    ok := qi == |q|;
    GreedyEnd(q, c, start, greedy, i);
  }

  lemma GreedyEnd(q: string, c: string, start: nat, greedy: seq<int>, i: nat)
    requires Greedy(q, c, start, greedy, i) && (i == |c| || |greedy| == |q|)
    ensures |greedy| == |q| ==> Embeds(q, c, greedy) && greedy[|greedy| - 1] >= start
    ensures |greedy| == |q| ==> forall at :: Embeds(q, c, at) && at[0] >= start ==> at[|at| - 1] >= greedy[|greedy| - 1]
    ensures |greedy| < |q| ==> forall at :: Embeds(q, c, at) ==> at[0] < start
  {
    if |greedy| == |q| { assert q[..|greedy|] == q; }
  }

  /** What has been found among the occurrences that start before `start`. */
  ghost predicate Best(q: string, c: string, start: int, best: int, found: bool)
    requires q != []
  {
    && (found ==> exists at :: Embeds(q, c, at) && Width(at) == best)
    && (forall at :: Embeds(q, c, at) && at[0] < start ==> found && best <= Width(at))
  }

  lemma BestStep(q: string, c: string, start: nat, best: int, found: bool, end: nat, best': int)
    requires q != [] && Best(q, c, start, best, found) && start <= end
    requires exists at :: Embeds(q, c, at) && at[0] == start && Width(at) == end - start + 1
    requires forall at :: Embeds(q, c, at) && at[0] >= start ==> at[|at| - 1] >= end
    requires best' == if !found || end - start + 1 < best then end - start + 1 else best
    ensures Best(q, c, start + 1, best', true)
  {
    forall at | Embeds(q, c, at) && at[0] < start + 1 ensures best' <= Width(at) {
    }
  }

  /** The shortest window; found exactly when the term occurs. */
  method MinSpan(q: string, c: string) returns (best: int, found: bool)
    ensures found <==> Occurs(q, c)
    ensures found ==> IsMinSpan(q, c, best)
  {
    if |q| == 0 {
      assert Embeds(q, c, []);
      return 0, true;
    }
    best, found := 0, false;
    var start: nat := 0;
    while start < |c|
      invariant start <= |c| && Best(q, c, start, best, found)
    {
      if c[start] == q[0] {
        var end, ok := FromStart(q, c, start);
        if !ok {
          return;
        }
        var span := end - start + 1;
        BestStep(q, c, start, best, found, end, if !found || span < best then span else best);
        if !found || span < best {
          best, found := span, true;
        }
        if best == |q| {
          forall at | Embeds(q, c, at) ensures best <= Width(at) {
            WidthAtLeast(q, c, at);
          }
          return;
        }
      }
      start := start + 1;
    }
  }

  // ---- Match classes ----

  const CLASS_FUZZY := 1
  const CLASS_SUBSTRING := 2
  const CLASS_PREFIX := 3

  predicate ContainsAt(term: string, c: string, p: nat) {
    p + |term| <= |c| && c[p..p + |term|] == term
  }

  predicate Contains(term: string, c: string) {
    exists p: nat :: p <= |c| && ContainsAt(term, c, p)
  }

  function MatchClass(term: string, c: string): int {
    if term <= c then CLASS_PREFIX else if Contains(term, c) then CLASS_SUBSTRING else CLASS_FUZZY
  }

  ghost predicate StartsWith(c: string, term: string) {
    exists b :: c == term + b
  }

  ghost predicate HasPiece(c: string, term: string) {
    exists a, b :: c == a + term + b
  }

  lemma ContainsMeans(term: string, c: string)
    ensures Contains(term, c) <==> HasPiece(c, term)
  {
    if Contains(term, c) {
      var p: nat :| p <= |c| && ContainsAt(term, c, p);
      assert c == c[..p] + term + c[p + |term|..];
    }
    if a, b :| c == a + term + b {
      assert c[|a|..|a| + |term|] == term;
      assert ContainsAt(term, c, |a|);
    }
  }

  /** Class 3 is for texts that start with the term, class 2 at least for those that contain it in one piece. */
  lemma MatchClassMeans(term: string, c: string)
    ensures MatchClass(term, c) >= 3 <==> StartsWith(c, term)
    ensures MatchClass(term, c) >= 2 <==> HasPiece(c, term)
    ensures 1 <= MatchClass(term, c) <= 3
  {
    if term <= c {
      assert c == term + c[|term|..] && c == [] + term + c[|term|..];
    }
    ContainsMeans(term, c);
  }

  function Places(p: nat, n: nat): (at: seq<int>)
    ensures |at| == n && forall k :: 0 <= k < n ==> at[k] == p + k
  {
    if n == 0 then [] else Places(p, n - 1) + [p + n - 1]
  }

  /** A term that stands in the text in one piece has a window of its own length. */
  lemma ContainedSpan(term: string, c: string, w: int)
    requires MatchClass(term, c) >= CLASS_SUBSTRING && IsMinSpan(term, c, w)
    ensures w == |term|
  {
    assert ContainsAt(term, c, 0) || Contains(term, c);
    var p: nat :| ContainsAt(term, c, p);
    PlacesEmbed(term, c, p);
    var at :| Embeds(term, c, at) && Width(at) == w;
    WidthAtLeast(term, c, at);
  }

  lemma PlacesEmbed(term: string, c: string, p: nat)
    requires ContainsAt(term, c, p)
    ensures Embeds(term, c, Places(p, |term|)) && Width(Places(p, |term|)) == |term|
  {
    var piece := c[p..p + |term|];
    assert forall k :: 0 <= k < |piece| ==> piece[k] == c[p + k];
  }

  lemma SpanAtLeast(term: string, c: string, w: int)
    requires IsMinSpan(term, c, w)
    ensures w >= |term|
  {
    var at :| Embeds(term, c, at) && Width(at) == w;
    WidthAtLeast(term, c, at);
  }
}
