/** Small types shared by every part of the model. */
module Base {

  datatype Option<+T> = None | Some(value: T)

  newtype byte = b: int | 0 <= b < 256

  const ESC: byte := 0x1b
  const LBRACKET: byte := 0x5b

  /** Concatenation of a list of pieces, first piece first. */
  function Concat<T>(pieces: seq<seq<T>>): (r: seq<T>)
  {
    if pieces == [] then [] else Concat(pieces[..|pieces| - 1]) + pieces[|pieces| - 1]
  }

  lemma ConcatSnoc<T>(pieces: seq<seq<T>>, last: seq<T>)
    ensures Concat(pieces + [last]) == Concat(pieces) + last
  {
    assert (pieces + [last])[..|pieces|] == pieces;
  }

  lemma {:induction false} ConcatAppend<T>(a: seq<seq<T>>, b: seq<seq<T>>)
    ensures Concat(a + b) == Concat(a) + Concat(b)
    decreases |b|
  {
    if b == [] {
      assert a + b == a;
    } else {
      var init, last := b[..|b| - 1], b[|b| - 1];
      assert a + b == (a + init) + [last];
      ConcatSnoc(a + init, last);
      ConcatAppend(a, init);
      assert (Concat(a) + Concat(init)) + last == Concat(a) + (Concat(init) + last);
    }
  }

  /** `ix` lists exactly these positions, in order. */
  ghost predicate ListsPositions(ix: seq<int>, which: set<int>) {
    && (forall i, j :: 0 <= i < j < |ix| ==> ix[i] < ix[j])
    && forall i :: i in ix <==> i in which
  }

  lemma PositionsMore(ix: seq<int>, which: set<int>, i: int)
    requires ListsPositions(ix, which) && forall w :: w in which ==> w < i
    ensures ListsPositions(ix + [i], which + {i})
  {
    assert forall k :: 0 <= k < |ix| ==> ix[k] in ix;
  }

  /** `out` is the part of `s` at these positions, in order. */
  ghost predicate PartOf<T>(s: seq<T>, which: set<int>, out: seq<T>) {
    exists ix :: ListsPositions(ix, which) && PicksFrom(s, ix, out)
  }

  ghost predicate PicksFrom<T>(s: seq<T>, ix: seq<int>, out: seq<T>) {
    |out| == |ix| && forall k :: 0 <= k < |ix| ==> 0 <= ix[k] < |s| && out[k] == s[ix[k]]
  }

  lemma PartOfNothing<T>(s: seq<T>, which: set<int>, out: seq<T>)
    requires which == {} && out == []
    ensures PartOf(s, which, out)
  {
    assert ListsPositions([], which) && PicksFrom(s, [], out);
  }

  /** The last element is left out, or added. */
  lemma PartSnoc<T>(s: seq<T>, which: set<int>, out: seq<T>)
    requires s != [] && PartOf(s[..|s| - 1], which, out) && forall w :: w in which ==> w < |s| - 1
    ensures PartOf(s, which + {}, out + []) && PartOf(s, which + {|s| - 1}, out + [s[|s| - 1]])
  {
    PartMore(s, |s| - 1, which, out);
    assert s[..|s| - 1 + 1] == s && which + {} == which && out + [] == out;
  }

  lemma PartMore<T>(s: seq<T>, n: nat, which: set<int>, out: seq<T>)
    requires n < |s| && PartOf(s[..n], which, out) && forall w :: w in which ==> w < n
    ensures PartOf(s[..n + 1], which, out) && PartOf(s[..n + 1], which + {n}, out + [s[n]])
  {
    var ix :| ListsPositions(ix, which) && PicksFrom(s[..n], ix, out);
    PositionsMore(ix, which, n);
    assert PicksFrom(s[..n + 1], ix, out) && PicksFrom(s[..n + 1], ix + [n], out + [s[n]]);
  }

  lemma SliceOfDrop<T>(s: seq<T>, n: nat, lo: nat, hi: nat)
    requires n <= lo <= hi <= |s|
    ensures s[n..][lo - n..hi - n] == s[lo..hi]
  {
  }

  lemma TakeSnoc<T>(s: seq<T>, n: nat)
    requires n < |s|
    ensures s[..n + 1] == s[..n] + [s[n]]
  {
  }

  lemma TakeAll<T>(s: seq<T>)
    ensures s[..|s|] == s
  {
  }

  lemma UpdateSnoc<T>(s: seq<T>, last: T, at: nat, x: T)
    requires at < |s|
    ensures (s + [last])[at := x] == s[at := x] + [last]
  {
  }

  lemma InitLast<T>(s: seq<T>)
    requires s != []
    ensures s == s[..|s| - 1] + [s[|s| - 1]]
  {
  }

  lemma UpdateEnd<T>(s: seq<T>, last: T, x: T)
    ensures (s + [last])[|s| := x] == s + [x]
  {
  }

  lemma SetTwice<K, V>(m: map<K, V>, k: K, x: V, y: V)
    ensures m[k := x][k := y] == m[k := y]
  {
  }

  lemma SetSwap<K, V>(m: map<K, V>, k: K, x: V, j: K, y: V)
    requires j != k
    ensures m[k := x][j := y] == m[j := y][k := x]
  {
  }

  /** A separator that the last parts do not contain splits in one way. */
  lemma SplitAtLast<T>(x: seq<T>, u: seq<T>, y: seq<T>, v: seq<T>, sep: T)
    requires x + [sep] + u == y + [sep] + v && sep !in u && sep !in v
    ensures x == y && u == v
  {
    var l, r := x + [sep] + u, y + [sep] + v;
    assert l[|x|] == sep && r[|y|] == sep;
    assert forall k :: |x| < k < |l| ==> l[k] == u[k - |x| - 1];
    assert forall k :: |y| < k < |r| ==> r[k] == v[k - |y| - 1];
    assert |x| == |y|;
    assert x == l[..|x|] && y == r[..|x|];
    assert u == l[|x| + 1..] && v == r[|x| + 1..];
  }
}
