/** The sorted index over the cache's commands, and the search for completions of a prefix. */
module PrefixSearch {
  import opened ByteOrder

  const MAX_HITS := 64

  ghost predicate Distinct(names: seq<string>) {
    forall i, j :: 0 <= i < j < |names| ==> names[i] != names[j]
  }

  /** `index` lists the first `n` names, smallest first. */
  ghost predicate Indexes(names: seq<string>, n: nat, index: seq<nat>) {
    && n <= |names|
    && (forall j :: 0 <= j < |index| ==> index[j] < n)
    && (forall i :: 0 <= i < n ==> i in index)
    && (forall j, k :: 0 <= j < k < |index| ==> Less(names[index[j]], names[index[k]]))
  }

  /** Where the next name belongs among those already indexed. */
  method Place(names: seq<string>, n: nat, index: seq<nat>) returns (k: nat)
    requires Indexes(names, n, index) && n < |names| && Distinct(names)
    ensures k <= |index|
    ensures forall j :: 0 <= j < k ==> Less(names[index[j]], names[n])
    ensures forall j :: k <= j < |index| ==> Less(names[n], names[index[j]])
  {
    k := |index|;
    while k > 0 && Less(names[n], names[index[k - 1]])
      invariant k <= |index|
      invariant forall j :: k <= j < |index| ==> Less(names[n], names[index[j]])
    {
      k := k - 1;
    }
    forall j | 0 <= j < k ensures Less(names[index[j]], names[n]) {
      Total(names[index[k - 1]], names[n]);
      if j < k - 1 {
        Transitive(names[index[j]], names[index[k - 1]], names[n]);
      }
    }
  }

  lemma PlaceIndexes(names: seq<string>, n: nat, index: seq<nat>, k: nat)
    requires Indexes(names, n, index) && n < |names| && k <= |index|
    requires forall j :: 0 <= j < k ==> Less(names[index[j]], names[n])
    requires forall j :: k <= j < |index| ==> Less(names[n], names[index[j]])
    ensures Indexes(names, n + 1, index[..k] + [n] + index[k..])
  {
    var index' := index[..k] + [n] + index[k..];
    assert forall j :: 0 <= j < |index'| ==> index'[j] == if j < k then index[j] else if j == k then n else index[j - 1];
    forall i | 0 <= i < n + 1 ensures i in index' {
      if i < n {
        assert i in index;
        var j :| 0 <= j < |index| && index[j] == i;
        assert index'[if j < k then j else j + 1] == i;
      } else {
        assert index'[k] == n;
      }
    }
  }

  method SortIndex(names: seq<string>) returns (index: seq<nat>)
    requires Distinct(names)
    ensures Indexes(names, |names|, index)
  {
    index := [];
    for n := 0 to |names|
      invariant Indexes(names, n, index)
    {
      var k := Place(names, n, index);
      PlaceIndexes(names, n, index, k);
      index := index[..k] + [n] + index[k..];
    }
  }

  /** Exactly one list of names is what a search for `prefix` answers: the first ones that extend it properly. */
  ghost predicate Answers(known: set<string>, prefix: string, found: seq<string>) {
    && |found| <= 64
    && (forall i :: 0 <= i < |found| ==> found[i] in known && prefix <= found[i] && found[i] != prefix)
    && (forall i, j :: 0 <= i < j < |found| ==> Less(found[i], found[j]))
    && (forall c :: c in known && prefix <= c && c != prefix ==>
                      c in found || (|found| == 64 && Less(found[63], c)))
  }

  lemma {:induction false} SamePrefix(known: set<string>, prefix: string, a: seq<string>, b: seq<string>, n: nat)
    requires Answers(known, prefix, a) && Answers(known, prefix, b) && n <= |a| && n <= |b|
    ensures forall j :: 0 <= j < n ==> a[j] == b[j]
    decreases n
  {
    if n > 0 {
      SamePrefix(known, prefix, a, b, n - 1);
      SameNext(known, prefix, a, b, n - 1);
    }
  }

  lemma NotSkipped(known: set<string>, prefix: string, a: seq<string>, b: seq<string>, k: nat)
    requires Answers(known, prefix, a) && Answers(known, prefix, b) && k < |a| && k < |b|
    requires forall j :: 0 <= j < k ==> a[j] == b[j]
    ensures !Less(a[k], b[k])
  {
    if Less(a[k], b[k]) {
      if |b| == MAX_HITS {
        if k < MAX_HITS - 1 { Transitive(a[k], b[k], b[MAX_HITS - 1]); }
        Asymmetric(a[k], b[MAX_HITS - 1]);
      }
      var j :| 0 <= j < |b| && b[j] == a[k];
      if j < k {
        Irreflexive(a[k]);
      } else {
        if j > k { Transitive(a[k], b[k], b[j]); }
        Irreflexive(a[k]);
      }
    }
  }

  lemma SameNext(known: set<string>, prefix: string, a: seq<string>, b: seq<string>, k: nat)
    requires Answers(known, prefix, a) && Answers(known, prefix, b) && k < |a| && k < |b|
    requires forall j :: 0 <= j < k ==> a[j] == b[j]
    ensures a[k] == b[k]
  {
    NotSkipped(known, prefix, a, b, k);
    NotSkipped(known, prefix, b, a, k);
    Total(a[k], b[k]);
  }

  lemma NotLonger(known: set<string>, prefix: string, a: seq<string>, b: seq<string>)
    requires Answers(known, prefix, a) && Answers(known, prefix, b)
    ensures |a| <= |b|
  {
    if |b| < |a| {
      SamePrefix(known, prefix, a, b, |b|);
      var j :| 0 <= j < |b| && b[j] == a[|b|];
      Irreflexive(a[|b|]);
    }
  }

  /** There is only one answer. */
  lemma AnswerUnique(known: set<string>, prefix: string, a: seq<string>, b: seq<string>)
    requires Answers(known, prefix, a) && Answers(known, prefix, b)
    ensures a == b
  {
    NotLonger(known, prefix, a, b);
    NotLonger(known, prefix, b, a);
    SamePrefix(known, prefix, a, b, |a|);
  }

  // ---- The search ----

  function NamesAt(names: seq<string>, index: seq<nat>): (found: seq<string>)
    requires forall j :: 0 <= j < |index| ==> index[j] < |names|
    ensures |found| == |index| && forall j :: 0 <= j < |index| ==> found[j] == names[index[j]]
  {
    if index == [] then [] else NamesAt(names, index[..|index| - 1]) + [names[index[|index| - 1]]]
  }

  ghost predicate Rising(names: seq<string>) {
    forall j, k :: 0 <= j < k < |names| ==> Less(names[j], names[k])
  }

  /** `lo` splits the names into those less than `prefix` and the rest. */
  ghost predicate Splits(names: seq<string>, prefix: string, lo: nat) {
    && lo <= |names|
    && (forall j :: 0 <= j < lo ==> Less(names[j], prefix))
    && (forall j :: lo <= j < |names| ==> !Less(names[j], prefix))
  }

  /** Binary search for the first indexed name that is not less than `prefix`. */
  method FirstNotLess(names: seq<string>, index: seq<nat>, prefix: string) returns (lo: nat)
    requires Indexes(names, |names|, index)
    ensures Splits(NamesAt(names, index), prefix, lo)
  {
    lo := 0;
    var hi := |index|;
    while lo < hi
      invariant lo <= hi <= |index|
      invariant forall j :: 0 <= j < lo ==> Less(names[index[j]], prefix)
      invariant forall j :: hi <= j < |index| ==> !Less(names[index[j]], prefix)
    {
      var mid := (lo + hi) / 2;
      if !Less(names[index[mid]], prefix) {
        forall j | mid <= j < hi ensures !Less(names[index[j]], prefix) {
          if j > mid && Less(names[index[j]], prefix) {
            Transitive(names[index[mid]], names[index[j]], prefix);
          }
        }
        hi := mid;
      } else {
        forall j | lo <= j <= mid ensures Less(names[index[j]], prefix) {
          if j < mid {
            Transitive(names[index[j]], names[index[mid]], prefix);
          }
        }
        lo := mid + 1;
      }
    }
  }

  /** The names with the prefix stand side by side from `lo` on, `prefix` itself first if it is there. */
  ghost predicate Scanned(names: seq<string>, prefix: string, lo: nat, s: nat, t: nat) {
    && lo <= s <= t <= |names| && s <= lo + 1 && t - s <= MAX_HITS
    && (s == lo + 1 ==> names[lo] == prefix)
    && (forall j :: s <= j < t ==> prefix <= names[j] && names[j] != prefix)
  }

  /** Where a scan may stop: at the end, at a name without the prefix, or with a full answer. */
  ghost predicate Stops(names: seq<string>, prefix: string, s: nat, t: nat) {
    t >= |names| || !(prefix <= names[t]) || t - s == MAX_HITS
  }

  lemma ScanComplete(names: seq<string>, prefix: string, lo: nat, s: nat, t: nat, j: nat)
    requires Rising(names) && Splits(names, prefix, lo) && Scanned(names, prefix, lo, s, t) && Stops(names, prefix, s, t)
    requires j < |names| && prefix <= names[j] && names[j] != prefix
    ensures s <= j
    ensures t <= j ==> t - s == MAX_HITS && Less(names[t - 1], names[j])
  {
    PrefixNotLess(prefix, names[j]);
    assert j >= s;
    if j >= t && t - s != MAX_HITS {
      PrefixConvex(prefix, names[t], names[j]);
    }
  }

  lemma ScanMisses(names: seq<string>, prefix: string, lo: nat, s: nat, t: nat, c: string)
    requires Rising(names) && Splits(names, prefix, lo) && Scanned(names, prefix, lo, s, t) && Stops(names, prefix, s, t)
    requires c in names && prefix <= c && c != prefix
    ensures c in names[s..t] || (t - s == MAX_HITS && Less(names[t - 1], c))
  {
    var j :| 0 <= j < |names| && names[j] == c;
    ScanComplete(names, prefix, lo, s, t, j);
    if j < t {
      assert names[s..t][j - s] == c;
    }
  }

  lemma ScanAnswers(names: seq<string>, prefix: string, lo: nat, s: nat, t: nat)
    requires Rising(names) && Splits(names, prefix, lo) && Scanned(names, prefix, lo, s, t) && Stops(names, prefix, s, t)
    ensures Answers(NameSet(names), prefix, names[s..t])
  {
    var found := names[s..t];
    assert forall j :: 0 <= j < |found| ==> found[j] == names[s + j];
    forall c | c in names && prefix <= c && c != prefix
      ensures c in found || (|found| == MAX_HITS && Less(found[MAX_HITS - 1], c))
    {
      ScanMisses(names, prefix, lo, s, t, c);
    }
  }

  /** One more name with the prefix. */
  lemma ScanStep(names: seq<string>, prefix: string, lo: nat, s: nat, t: nat)
    requires Rising(names) && Splits(names, prefix, lo) && Scanned(names, prefix, lo, s, t)
    requires t < |names| && t - s < MAX_HITS && prefix <= names[t]
    ensures names[t] == prefix ==> s == t && Scanned(names, prefix, lo, t + 1, t + 1)
    ensures names[t] != prefix ==> Scanned(names, prefix, lo, s, t + 1)
  {
    assert !Less(names[lo], prefix);
    assert t > lo ==> Less(names[lo], names[t]);
  }

  ghost function NameSet(names: seq<string>): set<string> {
    set c | c in names
  }

  lemma SameNames(names: seq<string>, index: seq<nat>)
    requires Indexes(names, |names|, index)
    ensures Rising(NamesAt(names, index)) && NameSet(NamesAt(names, index)) == NameSet(names)
  {
    var found := NamesAt(names, index);
    forall c | c in names ensures c in found {
      var i :| 0 <= i < |names| && names[i] == c;
      assert i in index;
      var j :| 0 <= j < |index| && index[j] == i;
      assert found[j] == c;
    }
  }

  lemma NamesAtSlice(names: seq<string>, index: seq<nat>, s: nat, t: nat)
    requires forall j :: 0 <= j < |index| ==> index[j] < |names|
    requires s <= t <= |index|
    ensures NamesAt(names, index[s..t]) == NamesAt(names, index)[s..t]
  {
  }

  /** The scan from `lo`: positions of the names with the prefix, up to the limit. */
  method Scan(names: seq<string>, index: seq<nat>, prefix: string, lo: nat, ghost sorted: seq<string>)
    returns (hits: seq<nat>, s: nat, t: nat)
    requires |sorted| == |index| && forall j :: 0 <= j < |index| ==> index[j] < |names| && sorted[j] == names[index[j]]
    requires Rising(sorted) && Splits(sorted, prefix, lo)
    ensures Scanned(sorted, prefix, lo, s, t) && Stops(sorted, prefix, s, t) && hits == index[s..t]
  {
    var i: nat := lo;
    hits, s := [], lo;
    while i < |index| && |hits| < MAX_HITS && prefix <= names[index[i]]
      invariant Scanned(sorted, prefix, lo, s, i)
      invariant hits == index[s..i]
    {
      ScanStep(sorted, prefix, lo, s, i);
      if names[index[i]] == prefix {
        s := i + 1;
      } else {
        hits := hits + [index[i]];
      }
      i := i + 1;
    }
    t := i;
  }

  /** Positions of the names that answer a search for `prefix`. */
  method Find(names: seq<string>, index: seq<nat>, prefix: string) returns (hits: seq<nat>)
    requires Indexes(names, |names|, index)
    ensures forall j :: 0 <= j < |hits| ==> hits[j] < |names|
    ensures Answers(NameSet(names), prefix, NamesAt(names, hits))
  {
    SameNames(names, index);
    var lo := FirstNotLess(names, index, prefix);
    var s, t;
    hits, s, t := Scan(names, index, prefix, lo, NamesAt(names, index));
    ScanAnswers(NamesAt(names, index), prefix, lo, s, t);
    NamesAtSlice(names, index, s, t);
  }
}
