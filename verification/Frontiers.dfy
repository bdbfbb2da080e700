/**
  Frontiers: how far each device's event sequence is known. A device that is not
  mentioned is known up to 0.
*/
module Frontiers {
  import opened ByteOrder

  type Frontier = map<string, int>

  function At(f: Frontier, device: string): int {
    if device in f then f[device] else 0
  }

  predicate Covers(f: Frontier, device: string, seqNo: int) {
    At(f, device) >= seqNo
  }

  ghost predicate NonNegative(f: Frontier) {
    forall d :: d in f ==> f[d] >= 0
  }

  /** What the loop over `b` decides. */
  ghost predicate Dominates(a: Frontier, b: Frontier) {
    forall d :: d in b ==> At(a, d) >= b[d]
  }

  /** Everything known in `b` is known in `a`. */
  ghost predicate Above(a: Frontier, b: Frontier) {
    forall d, s :: Covers(b, d, s) ==> Covers(a, d, s)
  }

  method DominatesLoop(a: Frontier, b: Frontier) returns (r: bool)
    ensures r <==> Dominates(a, b)
  {
    var todo := b.Keys;
    while todo != {}
      invariant todo <= b.Keys
      invariant forall d :: d in b && d !in todo ==> At(a, d) >= b[d]
    {
      var d :| d in todo;
      if At(a, d) < b[d] {
        return false;
      }
      todo := todo - {d};
    }
    r := true;
  }

  lemma AboveAt(a: Frontier, b: Frontier)
    ensures Above(a, b) <==> forall d :: At(a, d) >= At(b, d)
  {
    if Above(a, b) {
      forall d ensures At(a, d) >= At(b, d) {
        assert Covers(b, d, At(b, d));
      }
    }
  }

  /** On non-negative frontiers the loop decides the order of what is known. */
  lemma DominatesIffAbove(a: Frontier, b: Frontier)
    requires NonNegative(a)
    ensures Dominates(a, b) ==> Above(a, b)
    ensures Above(a, b) ==> Dominates(a, b)
  {
    AboveAt(a, b);
    if Above(a, b) {
      forall d | d in b ensures At(a, d) >= b[d] {
        assert At(a, d) >= At(b, d);
      }
    }
  }

  // ---- Score ----

  ghost function SumAt(f: Frontier, devices: set<string>): int {
    if devices == {} then 0
    else
      var d :| d in devices;
      At(f, d) + SumAt(f, devices - {d})
  }

  ghost function Score(f: Frontier): int {
    SumAt(f, f.Keys)
  }

  /** The order of summation does not matter. */
  lemma {:induction false} SumRemove(f: Frontier, devices: set<string>, d: string)
    requires d in devices
    ensures SumAt(f, devices) == At(f, d) + SumAt(f, devices - {d})
    decreases |devices|
  {
    var c :| c in devices && SumAt(f, devices) == At(f, c) + SumAt(f, devices - {c});
    if c != d {
      SumRemove(f, devices - {c}, d);
      SumRemove(f, devices - {d}, c);
      assert devices - {c} - {d} == devices - {d} - {c};
    }
  }

  method ScoreLoop(f: Frontier) returns (n: int)
    ensures n == Score(f)
  {
    n := 0;
    var todo := f.Keys;
    while todo != {}
      invariant todo <= f.Keys
      invariant n + SumAt(f, todo) == Score(f)
    {
      var d :| d in todo;
      SumRemove(f, todo, d);
      n := n + f[d];
      todo := todo - {d};
    }
  }

  /** Devices that are not mentioned add nothing. */
  lemma {:induction false} SumMore(f: Frontier, devices: set<string>)
    requires f.Keys <= devices
    ensures SumAt(f, devices) == Score(f)
    decreases |devices|
  {
    if devices == f.Keys {
    } else {
      var d :| d in devices && d !in f;
      SumRemove(f, devices, d);
      SumMore(f, devices - {d});
    }
  }

  lemma {:induction false} SumOrder(a: Frontier, b: Frontier, devices: set<string>)
    requires forall d :: d in devices ==> At(a, d) >= At(b, d)
    ensures SumAt(a, devices) >= SumAt(b, devices)
    ensures (exists d :: d in devices && At(a, d) > At(b, d)) ==> SumAt(a, devices) > SumAt(b, devices)
    decreases |devices|
  {
    if devices != {} {
      var d :| d in devices;
      if x :| x in devices && At(a, x) > At(b, x) { d := x; }
      SumRemove(a, devices, d);
      SumRemove(b, devices, d);
      SumOrder(a, b, devices - {d});
    }
  }

  lemma HigherEverywhere(a: Frontier, b: Frontier)
    requires forall d :: At(a, d) >= At(b, d)
    ensures Score(a) >= Score(b)
    ensures !Dominates(b, a) ==> Score(a) > Score(b)
  {
    var devices := a.Keys + b.Keys;
    SumMore(a, devices);
    SumMore(b, devices);
    SumOrder(a, b, devices);
    if !Dominates(b, a) {
      var d :| d in a && At(b, d) < a[d];
      assert d in devices && At(a, d) > At(b, d);
    }
  }

  /** Strict dominance forces a strictly larger sum. */
  lemma DominanceRaisesScore(a: Frontier, b: Frontier)
    requires NonNegative(a) && Dominates(a, b)
    ensures Score(a) >= Score(b)
    ensures !Dominates(b, a) ==> Score(a) > Score(b)
  {
    DominatesIffAbove(a, b);
    AboveAt(a, b);
    HigherEverywhere(a, b);
  }

  /** Among all frontiers that `m` strictly dominates, none reaches its sum. */
  ghost predicate SumFollows(m: Frontier) {
    forall f :: Dominates(m, f) && !Dominates(f, m) ==> Score(m) > Score(f)
  }

  lemma OneKeyFollows(m: Frontier, f: Frontier)
    requires |m.Keys| == 1 && Dominates(m, f) && !Dominates(f, m)
    ensures Score(m) > Score(f)
  {
    var x :| x in m;
    assert m.Keys == {x} by {
      if y :| y in m && y != x { assert {x, y} <= m.Keys; SetSizes({x, y}, m.Keys); }
    }
    if NonNegative(m) {
      DominanceRaisesScore(m, f);
    } else {
      assert At(f, x) < m[x];
      HigherEverywhere(m, f);
    }
  }

  lemma SetSizes(a: set<string>, b: set<string>)
    requires a <= b
    ensures |a| <= |b|
  {
    assert b == a + (b - a);
  }

  /** A negative number next to another device: leaving it out raises the sum. */
  function Without(m: Frontier, x: string, y: string): Frontier
    requires x in m
  {
    (m - {y})[x := m[x] - 1]
  }

  lemma {:induction false} SumSame(a: Frontier, b: Frontier, devices: set<string>)
    requires forall d :: d in devices ==> At(a, d) == At(b, d)
    ensures SumAt(a, devices) == SumAt(b, devices)
    decreases |devices|
  {
    if devices != {} {
      var d :| d in devices;
      SumRemove(a, devices, d);
      SumRemove(b, devices, d);
      SumSame(a, b, devices - {d});
    }
  }

  lemma WithoutScore(m: Frontier, x: string, y: string)
    requires x in m && y in m && x != y
    ensures Score(Without(m, x, y)) == Score(m) - m[y] - 1
  {
    var f, rest := Without(m, x, y), m.Keys - {y} - {x};
    SumRemove(m, m.Keys, y);
    SumRemove(m, m.Keys - {y}, x);
    assert f.Keys == m.Keys - {y};
    SumRemove(f, m.Keys - {y}, x);
    SumSame(m, f, rest);
  }

  /**
    The sum follows strict dominance below a frontier if and only if the frontier has
    no negative number, or names one device only.
  */
  lemma SumFollowsIff(m: Frontier)
    ensures SumFollows(m) <==> NonNegative(m) || |m.Keys| == 1
  {
    if NonNegative(m) || |m.Keys| == 1 {
      forall f | Dominates(m, f) && !Dominates(f, m) ensures Score(m) > Score(f) {
        if NonNegative(m) { DominanceRaisesScore(m, f); } else { OneKeyFollows(m, f); }
      }
    } else {
      var f := OutranksItsBetter(m);
    }
  }

  lemma OutranksItsBetter(m: Frontier) returns (f: Frontier)
    requires !NonNegative(m) && |m.Keys| != 1
    ensures Dominates(m, f) && !Dominates(f, m) && Score(f) >= Score(m)
  {
    var y :| y in m && m[y] < 0;
    assert m.Keys != {y};
    var x :| x in m && x != y;
    f := Without(m, x, y);
    WithoutScore(m, x, y);
    assert At(f, x) < m[x];
  }

  // ---- Advancing, merging, and what is missing ----

  function Advance(f: Frontier, device: string, seqNo: int): (r: Frontier)
    ensures forall d :: At(r, d) == if d == device && seqNo > At(f, d) then seqNo else At(f, d)
  {
    if seqNo > At(f, device) then f[device := seqNo] else f
  }

  method Union(a: Frontier, b: Frontier) returns (out: Frontier)
    ensures IsUnion(a, b, out)
    ensures forall d :: d in out <==> d in a || (d in b && b[d] > 0)
  {
    out := a;
    var todo := b.Keys;
    while todo != {}
      invariant todo <= b.Keys
      invariant forall d :: d in out <==> d in a || (d in b && d !in todo && b[d] > 0)
      invariant forall d :: At(out, d) == if d in b && d !in todo && b[d] > At(a, d) then b[d] else At(a, d)
    {
      var d :| d in todo;
      if b[d] > At(out, d) {
        out := out[d := b[d]];
      }
      todo := todo - {d};
    }
  }

  ghost predicate IsUnion(a: Frontier, b: Frontier, out: Frontier) {
    forall d :: At(out, d) == if d in b && b[d] > At(a, d) then b[d] else At(a, d)
  }

  /** The union is the least frontier above both. */
  lemma UnionIsLeast(a: Frontier, b: Frontier, out: Frontier)
    requires NonNegative(a) && IsUnion(a, b, out)
    ensures Above(out, a) && Above(out, b)
    ensures forall c :: Above(c, a) && Above(c, b) ==> Above(c, out)
  {
    AboveAt(out, a);
    AboveAt(out, b);
    forall c | Above(c, a) && Above(c, b) ensures Above(c, out) {
      AboveAt(c, a);
      AboveAt(c, b);
      AboveAt(c, out);
    }
  }

  datatype Range = Range(device: string, start: int, end: int)

  /** The ranges a frontier lacks of another: one per device that is behind, in device order. */
  ghost predicate IsMissing(local: Frontier, remote: Frontier, out: seq<Range>) {
    && (forall i :: 0 <= i < |out| ==>
                      out[i].device in remote && remote[out[i].device] > At(local, out[i].device)
                      && out[i].start == At(local, out[i].device) + 1 && out[i].end == remote[out[i].device])
    && (forall i, j :: 0 <= i < j < |out| ==> Less(out[i].device, out[j].device))
    && (forall d :: d in remote && remote[d] > At(local, d) ==> exists i :: 0 <= i < |out| && out[i].device == d)
  }

  /** What is in the ranges is exactly what the other frontier covers and this one does not. */
  lemma MissingIsDifference(local: Frontier, remote: Frontier, out: seq<Range>, d: string, s: int)
    requires NonNegative(local) && IsMissing(local, remote, out)
    ensures (exists i :: 0 <= i < |out| && out[i].device == d && out[i].start <= s <= out[i].end)
       <==> Covers(remote, d, s) && !Covers(local, d, s)
  {
  }

  function AdvanceAll(f: Frontier, rs: seq<Range>): Frontier {
    if rs == [] then f else Advance(AdvanceAll(f, rs[..|rs| - 1]), rs[|rs| - 1].device, rs[|rs| - 1].end)
  }

  lemma {:induction false} AdvanceAllAt(f: Frontier, rs: seq<Range>, d: string)
    requires forall i, j :: 0 <= i < j < |rs| ==> Less(rs[i].device, rs[j].device)
    ensures (forall i :: 0 <= i < |rs| ==> rs[i].device != d) ==> At(AdvanceAll(f, rs), d) == At(f, d)
    ensures forall i :: 0 <= i < |rs| && rs[i].device == d && rs[i].end > At(f, d) ==> At(AdvanceAll(f, rs), d) == rs[i].end
    decreases |rs|
  {
    if rs != [] {
      var n := |rs| - 1;
      AdvanceAllAt(f, rs[..n], d);
      Irreflexive(rs[n].device);
      assert forall i :: 0 <= i < n ==> rs[..n][i] == rs[i];
      assert rs[n].device == d ==> forall i :: 0 <= i < n ==> rs[i].device != d;
    }
  }

  /** Fetching every missing range makes the frontier the union of the two. */
  lemma FetchingGivesUnion(local: Frontier, remote: Frontier, out: seq<Range>)
    requires IsMissing(local, remote, out)
    ensures IsUnion(local, remote, AdvanceAll(local, out))
  {
    forall d ensures At(AdvanceAll(local, out), d) == if d in remote && remote[d] > At(local, d) then remote[d] else At(local, d) {
      AdvanceAllAt(local, out, d);
    }
  }

  method PlaceRange(out: seq<Range>, r: Range) returns (k: nat)
    requires forall i, j :: 0 <= i < j < |out| ==> Less(out[i].device, out[j].device)
    requires forall i :: 0 <= i < |out| ==> out[i].device != r.device
    ensures k <= |out|
    ensures forall i :: 0 <= i < k ==> Less(out[i].device, r.device)
    ensures forall i :: k <= i < |out| ==> Less(r.device, out[i].device)
  {
    k := |out|;
    while k > 0 && Less(r.device, out[k - 1].device)
      invariant k <= |out|
      invariant forall i :: k <= i < |out| ==> Less(r.device, out[i].device)
    {
      k := k - 1;
    }
    forall i | 0 <= i < k ensures Less(out[i].device, r.device) {
      Total(out[k - 1].device, r.device);
      if i < k - 1 {
        Transitive(out[i].device, out[k - 1].device, r.device);
      }
    }
  }

  /** The ranges for the devices in `seen`. */
  ghost predicate MissingFor(local: Frontier, remote: Frontier, seen: set<string>, out: seq<Range>) {
    && (forall i, j :: 0 <= i < j < |out| ==> Less(out[i].device, out[j].device))
    && (forall r :: r in out <==>
                    r.device in seen && r.device in remote && remote[r.device] > At(local, r.device)
                    && r == Range(r.device, At(local, r.device) + 1, remote[r.device]))
  }

  /** The range of a device that is behind. */
  function RangeOf(local: Frontier, remote: Frontier, device: string): Range
    requires device in remote
  {
    Range(device, At(local, device) + 1, remote[device])
  }

  lemma SkipDevice(local: Frontier, remote: Frontier, seen: set<string>, out: seq<Range>, device: string)
    requires MissingFor(local, remote, seen, out) && device in remote && remote[device] <= At(local, device)
    ensures MissingFor(local, remote, seen + {device}, out)
  {
  }

  lemma DevicesSeen(local: Frontier, remote: Frontier, seen: set<string>, out: seq<Range>)
    requires MissingFor(local, remote, seen, out)
    ensures forall i :: 0 <= i < |out| ==> out[i].device in seen
  {
    forall i | 0 <= i < |out| ensures out[i].device in seen {
      assert out[i] in out;
    }
  }

  lemma InsertedRange(out: seq<Range>, r: Range, k: nat)
    requires k <= |out|
    ensures forall x :: x in out[..k] + [r] + out[k..] <==> x == r || x in out
  {
    assert out == out[..k] + out[k..];
  }

  lemma InsertedInOrder(out: seq<Range>, r: Range, k: nat)
    requires k <= |out| && forall i, j :: 0 <= i < j < |out| ==> Less(out[i].device, out[j].device)
    requires forall i :: 0 <= i < k ==> Less(out[i].device, r.device)
    requires forall i :: k <= i < |out| ==> Less(r.device, out[i].device)
    ensures var out' := out[..k] + [r] + out[k..];
            forall i, j :: 0 <= i < j < |out'| ==> Less(out'[i].device, out'[j].device)
  {
    var out' := out[..k] + [r] + out[k..];
    assert forall i :: 0 <= i < |out'| ==> out'[i] == if i < k then out[i] else if i == k then r else out[i - 1];
  }

  /** Inserting a device's range in its place keeps the list right. */
  lemma InsertDevice(local: Frontier, remote: Frontier, seen: set<string>, out: seq<Range>, device: string, k: nat)
    requires MissingFor(local, remote, seen, out) && device in remote && remote[device] > At(local, device) && k <= |out|
    requires forall i :: 0 <= i < k ==> Less(out[i].device, device)
    requires forall i :: k <= i < |out| ==> Less(device, out[i].device)
    ensures MissingFor(local, remote, seen + {device}, out[..k] + [RangeOf(local, remote, device)] + out[k..])
  {
    InsertedRange(out, RangeOf(local, remote, device), k);
    InsertedInOrder(out, RangeOf(local, remote, device), k);
  }

  method Missing(local: Frontier, remote: Frontier) returns (out: seq<Range>)
    ensures IsMissing(local, remote, out)
  {
    out := [];
    var todo := remote.Keys;
    ghost var seen: set<string> := {};
    while todo != {}
      invariant todo <= remote.Keys && seen == remote.Keys - todo
      invariant MissingFor(local, remote, seen, out)
    {
      var d :| d in todo;
      if remote[d] > At(local, d) {
        DevicesSeen(local, remote, seen, out);
        var k := PlaceRange(out, RangeOf(local, remote, d));
        InsertDevice(local, remote, seen, out, d, k);
        out := out[..k] + [RangeOf(local, remote, d)] + out[k..];
      } else {
        SkipDevice(local, remote, seen, out, d);
      }
      todo, seen := todo - {d}, seen + {d};
    }
    MissingAll(local, remote, out);
  }

  lemma MissingAll(local: Frontier, remote: Frontier, out: seq<Range>)
    requires MissingFor(local, remote, remote.Keys, out)
    ensures IsMissing(local, remote, out)
  {
    forall i | 0 <= i < |out| ensures out[i].device in remote && remote[out[i].device] > At(local, out[i].device)
                                      && out[i].start == At(local, out[i].device) + 1 && out[i].end == remote[out[i].device] {
      assert out[i] in out;
    }
    forall d | d in remote && remote[d] > At(local, d) ensures exists i :: 0 <= i < |out| && out[i].device == d {
      var r := Range(d, At(local, d) + 1, remote[d]);
      assert r in out;
    }
  }
}
