/** The order of strings byte by byte, and what it says about prefixes. */
module ByteOrder {

  predicate Less(a: string, b: string) {
    if b == [] then false
    else if a == [] then true
    else if a[0] != b[0] then a[0] < b[0]
    else Less(a[1..], b[1..])
  }

  lemma {:induction false} Irreflexive(a: string)
    ensures !Less(a, a)
    decreases |a|
  {
    if a != [] { Irreflexive(a[1..]); }
  }

  lemma {:induction false} Transitive(a: string, b: string, c: string)
    requires Less(a, b) && Less(b, c)
    ensures Less(a, c)
    decreases |a|
  {
    if a != [] && a[0] == b[0] && b[0] == c[0] {
      Transitive(a[1..], b[1..], c[1..]);
    }
  }

  lemma {:induction false} Total(a: string, b: string)
    ensures Less(a, b) || a == b || Less(b, a)
    decreases |a|
  {
    if a != [] && b != [] && a[0] == b[0] {
      Total(a[1..], b[1..]);
      assert a == [a[0]] + a[1..] && b == [b[0]] + b[1..];
    }
  }

  lemma {:induction false} Asymmetric(a: string, b: string)
    requires Less(a, b)
    ensures !Less(b, a) && a != b
  {
    Irreflexive(a);
    if Less(b, a) { Transitive(a, b, a); }
  }

  /** A string is not less than its prefixes. */
  lemma {:induction false} PrefixNotLess(p: string, a: string)
    requires p <= a
    ensures !Less(a, p)
    decreases |p|
  {
    if p != [] { PrefixNotLess(p[1..], a[1..]); }
  }

  /** Between a prefix and a string that has it, every string has it. */
  lemma {:induction false} PrefixConvex(p: string, b: string, c: string)
    requires p <= c && !Less(b, p) && Less(b, c)
    ensures p <= b
    decreases |p|
  {
    if p != [] {
      assert b != [] && c != [];
      assert b[0] == p[0];
      PrefixConvex(p[1..], b[1..], c[1..]);
      assert b == [b[0]] + b[1..] && p == [p[0]] + p[1..];
    }
  }

  /** The strings agree up to `i`; there the first one ends, or has the smaller character. */
  ghost predicate DifferAt(a: string, b: string, i: nat) {
    && i <= |a| && i < |b| && a[..i] == b[..i]
    && (i == |a| || a[i] < b[i])
  }

  lemma {:induction false} LessMeans(a: string, b: string)
    ensures Less(a, b) <==> exists i: nat :: DifferAt(a, b, i)
    decreases |a|
  {
    if Less(a, b) {
      if a == [] || a[0] != b[0] {
        assert DifferAt(a, b, 0);
      } else {
        LessMeans(a[1..], b[1..]);
        var i: nat :| DifferAt(a[1..], b[1..], i);
        assert a[..i + 1] == [a[0]] + a[1..][..i] && b[..i + 1] == [b[0]] + b[1..][..i];
        assert DifferAt(a, b, i + 1);
      }
    }
    if i: nat :| DifferAt(a, b, i) {
      if i > 0 {
        assert a[0] == a[..i][0] && b[0] == b[..i][0];
        assert a[1..][..i - 1] == a[..i][1..] && b[1..][..i - 1] == b[..i][1..];
        assert DifferAt(a[1..], b[1..], i - 1);
        LessMeans(a[1..], b[1..]);
      }
    }
  }
}
