/**
  What a merged tree looks like: where its pairs and items come from, in which order,
  and whose comments they carry. What it shows follows from that.
*/
module YamlLook {
  import opened Base
  import opened YamlContent

  // ---- Mappings ----

  /** The destination's pairs that stay: those with a key of the source, or with `keep` all. */
  function StayingAt(keep: bool, d: seq<Pair>, keys: set<string>, n: nat): set<int>
    requires n <= |d|
  {
    set i | 0 <= i < n && (keep || d[i].key in keys)
  }

  /** The source's pairs whose keys the destination does not have. */
  function NewAt(s: seq<Pair>, keys: set<string>, n: nat): set<int>
    requires n <= |s|
  {
    set i | 0 <= i < n && s[i].key !in keys
  }

  // ---- Sequences ----

  predicate HasIds(items: seq<Node>) {
    exists i :: 0 <= i < |items| && IdOf(items[i]) != ""
  }

  predicate HasId(items: seq<Node>, id: string) {
    exists i :: 0 <= i < |items| && IdOf(items[i]) == id
  }

  /** Items are matched by id if any item on either side has one. */
  predicate ById(d: seq<Node>, s: seq<Node>) {
    HasIds(s) || HasIds(d)
  }

  /** The item has an id that the destination has too. */
  predicate IsShared(d: seq<Node>, n: Node) {
    IdOf(n) != "" && HasId(d, IdOf(n))
  }

  /** May take the place of: with ids any item without one, else any item, a scalar only for a scalar with its value. */
  predicate Fits(byId: bool, d: Node, s: Node) {
    if byId then IdOf(d) == "" else s.Scalar? ==> d.Scalar? && d.value == s.value
  }

  /** `i` is the first item of the destination that fits and is not taken; -1 if there is none. */
  ghost predicate FirstFree(byId: bool, d: seq<Node>, s: Node, taken: seq<int>, i: int) {
    && -1 <= i < |d|
    && (i >= 0 ==> Fits(byId, d[i], s) && i !in taken)
    && forall k :: 0 <= k < (if i >= 0 then i else |d|) ==> k in taken || !Fits(byId, d[k], s)
  }

  /** `i` is the last item of the destination with this id. */
  ghost predicate IsLastWithId(d: seq<Node>, id: string, i: int) {
    && 0 <= i < |d| && IdOf(d[i]) == id
    && forall k :: i < k < |d| ==> IdOf(d[k]) != id
  }

  /** The item that the source item is matched with: the last one with its id, or else the first free one. */
  ghost predicate Partner(d: seq<Node>, s: seq<Node>, n: Node, taken: seq<int>, i: int) {
    if ById(d, s) && IsShared(d, n) then IsLastWithId(d, IdOf(n), i) else FirstFree(ById(d, s), d, n, taken, i)
  }

  // ---- The look ----

  /**
    `r` is `d` with the values of `s`. Mappings that meet keep the comments, the tag and
    the order of `d`, then come the keys that only `s` has, in its order. Sequences that
    meet have the order of `s`; an item with a partner in `d` is that partner with the
    item's values. Anything else is as in `s`, with the comments of `d`.
  */
  ghost predicate Dressed(keep: bool, r: Node, d: Node, s: Node)
    decreases s, 4, 0
  {
    if d.Mapping? && s.Mapping? then
      && r.Mapping? && r.note == d.note && r.tag == d.tag
      && exists stay, more :: DressedPairs(keep, r.pairs, d.pairs, s, stay, more)
    else if d.Sequence? && s.Sequence? then
      && r.Sequence? && r.note == d.note && r.tag == d.tag
      && exists at :: DressedItems(keep, r.items, d.items, s, at)
    else r == s.(note := d.note)
  }

  ghost predicate DressedPairs(keep: bool, r: seq<Pair>, d: seq<Pair>, s: Node, stay: seq<int>, more: seq<int>)
    requires s.Mapping?
    decreases s, 3, 0
  {
    && ListsPositions(stay, StayingAt(keep, d, Keys(s.pairs), |d|)) && ListsPositions(more, NewAt(s.pairs, Keys(d), |s.pairs|))
    && |r| == |stay| + |more|
    && (forall k :: 0 <= k < |stay| ==> 0 <= stay[k] < |d| && DressedPair(keep, r[k], d[stay[k]], s))
    && (forall k :: 0 <= k < |more| ==> 0 <= more[k] < |s.pairs| && NewPair(r[|stay| + k], s.pairs, s.pairs[more[k]].key))
  }

  ghost predicate DressedPair(keep: bool, r: Pair, d: Pair, s: Node)
    requires s.Mapping?
    decreases s, 2, 0
  {
    r.key == d.key && if d.key in Keys(s.pairs) then Dressed(keep, r.val, d.val, ValueOf(s.pairs, d.key)) else r.val == d.val
  }

  predicate NewPair(r: Pair, s: seq<Pair>, key: string) {
    r.key == key && key in Keys(s) && r.val == ValueOf(s, key)
  }

  ghost predicate DressedItems(keep: bool, r: seq<Node>, d: seq<Node>, s: Node, at: seq<int>)
    requires s.Sequence?
    decreases s, 3, 0
  {
    && |r| == |s.items| == |at|
    && forall j :: 0 <= j < |r| ==> Partner(d, s.items, s.items[j], at[..j], at[j]) && DressedItem(keep, r[j], d, s, at[j], j)
  }

  ghost predicate DressedItem(keep: bool, r: Node, d: seq<Node>, s: Node, i: int, j: nat)
    requires s.Sequence? && j < |s.items|
    decreases s, 2, 0
  {
    if !(0 <= i < |d|) then r == s.items[j]
    else if ById(d, s.items) && IsShared(d, s.items[j]) then Chain(keep, r, d[i], s, |s.items|, IdOf(s.items[j]))
    else Dressed(keep, r, d[i], s.items[j])
  }

  /** `v` is `d` after all the items with this id among the first `n`, one after the other. */
  ghost predicate Chain(keep: bool, v: Node, d: Node, s: Node, n: nat, id: string)
    requires s.Sequence? && n <= |s.items|
    decreases s, 1, 2 * n
  {
    if n == 0 then v == d
    else if IdOf(s.items[n - 1]) == id then Link(keep, v, d, s, n - 1, id)
    else Chain(keep, v, d, s, n - 1, id)
  }

  ghost predicate Link(keep: bool, v: Node, d: Node, s: Node, n: nat, id: string)
    requires s.Sequence? && n < |s.items|
    decreases s, 1, 2 * n + 1
  {
    exists v0 :: Chain(keep, v0, d, s, n, id) && Dressed(keep, v, v0, s.items[n])
  }

  /** The comments are the destination's. */
  lemma DressedNote(keep: bool, r: Node, d: Node, s: Node)
    requires Dressed(keep, r, d, s)
    ensures r.note == d.note
  {
  }

  // ---- Where the value of a key comes from ----

  lemma ListedAt(ix: seq<int>, which: set<int>, i: int) returns (k: nat)
    requires ListsPositions(ix, which) && i in which
    ensures k < |ix| && ix[k] == i
  {
    assert i in ix;
    k :| 0 <= k < |ix| && ix[k] == i;
  }

  /** A key on both sides. */
  lemma SharedValue(keep: bool, r: seq<Pair>, d: seq<Pair>, s: Node, stay: seq<int>, more: seq<int>, key: string)
    requires s.Mapping? && DressedPairs(keep, r, d, s, stay, more) && key in Keys(d) && key in Keys(s.pairs)
    ensures key in Keys(r) && Dressed(keep, ValueOf(r, key), ValueOf(d, key), ValueOf(s.pairs, key))
  {
    var at := LastExists(d, key);
    var k := ListedAt(stay, StayingAt(keep, d, Keys(s.pairs), |d|), at);
    StayLast(keep, r, d, s, stay, more, key, at, k);
    LastIsValue(r, key, k);
    assert DressedPair(keep, r[k], d[stay[k]], s);
  }

  lemma StayLast(keep: bool, r: seq<Pair>, d: seq<Pair>, s: Node, stay: seq<int>, more: seq<int>, key: string, at: int, k: nat)
    requires s.Mapping? && DressedPairs(keep, r, d, s, stay, more) && LastAt(d, key, at) && k < |stay| && stay[k] == at
    ensures LastAt(r, key, k)
  {
    assert DressedPair(keep, r[k], d[stay[k]], s);
    forall j | k < j < |r| ensures r[j].key != key {
      if j < |stay| {
        assert DressedPair(keep, r[j], d[stay[j]], s);
      } else {
        var m := j - |stay|;
        assert NewPair(r[|stay| + m], s.pairs, s.pairs[more[m]].key) && more[m] in more;
        KeyIn(d, at);
      }
    }
  }

  /** A key that only the destination has. */
  lemma KeptValue(keep: bool, r: seq<Pair>, d: seq<Pair>, s: Node, stay: seq<int>, more: seq<int>, key: string)
    requires s.Mapping? && DressedPairs(keep, r, d, s, stay, more) && keep && key in Keys(d) && key !in Keys(s.pairs)
    ensures key in Keys(r) && ValueOf(r, key) == ValueOf(d, key)
  {
    var at := LastExists(d, key);
    var k := ListedAt(stay, StayingAt(keep, d, Keys(s.pairs), |d|), at);
    StayLast(keep, r, d, s, stay, more, key, at, k);
    LastIsValue(r, key, k);
    assert DressedPair(keep, r[k], d[stay[k]], s);
  }

  /** A key that only the source has. */
  lemma NewValue(keep: bool, r: seq<Pair>, d: seq<Pair>, s: Node, stay: seq<int>, more: seq<int>, key: string)
    requires s.Mapping? && DressedPairs(keep, r, d, s, stay, more) && key !in Keys(d) && key in Keys(s.pairs)
    ensures key in Keys(r) && ValueOf(r, key) == ValueOf(s.pairs, key)
  {
    KeysAt(s.pairs, key);
    var i :| 0 <= i < |s.pairs| && s.pairs[i].key == key;
    var k := ListedAt(more, NewAt(s.pairs, Keys(d), |s.pairs|), i);
    KeyIn(r, |stay| + k);
    var at := LastExists(r, key);
    forall j | 0 <= j < |stay| ensures r[j].key != key {
      assert DressedPair(keep, r[j], d[stay[j]], s);
      KeyIn(d, stay[j]);
    }
    assert NewPair(r[|stay| + (at - |stay|)], s.pairs, s.pairs[more[at - |stay|]].key);
  }

  /** No other key appears. */
  lemma NoOtherKey(keep: bool, r: seq<Pair>, d: seq<Pair>, s: Node, stay: seq<int>, more: seq<int>, key: string)
    requires s.Mapping? && DressedPairs(keep, r, d, s, stay, more) && key in Keys(r)
    ensures key in Keys(s.pairs) || (keep && key in Keys(d))
  {
    KeysAt(r, key);
    var k :| 0 <= k < |r| && r[k].key == key;
    if k < |stay| {
      assert DressedPair(keep, r[k], d[stay[k]], s) && stay[k] in stay;
      KeyIn(d, stay[k]);
    } else {
      var m := k - |stay|;
      assert NewPair(r[|stay| + m], s.pairs, s.pairs[more[m]].key);
    }
  }

  // ---- Items with an id ----

  function LastWith(items: seq<Node>, n: nat, id: string): (i: nat)
    requires n <= |items|
    ensures i < n || i == 0
  {
    if n == 0 then 0 else if IdOf(items[n - 1]) == id then n - 1 else LastWith(items, n - 1, id)
  }

  lemma {:induction false} LastHasId(items: seq<Node>, n: nat, j: nat)
    requires j < n <= |items|
    ensures j <= LastWith(items, n, IdOf(items[j])) && IdOf(items[LastWith(items, n, IdOf(items[j]))]) == IdOf(items[j])
    decreases n
  {
    if j < n - 1 { LastHasId(items, n - 1, j); }
  }

  /** If no other item has its id, an item is merged once. */
  lemma {:induction false} ChainNone(keep: bool, v: Node, d: Node, s: Node, n: nat, id: string)
    requires s.Sequence? && n <= |s.items| && Chain(keep, v, d, s, n, id)
    requires forall i :: 0 <= i < n ==> IdOf(s.items[i]) != id
    ensures v == d
    decreases n
  {
    if n > 0 { ChainNone(keep, v, d, s, n - 1, id); }
  }

  lemma {:induction false} ChainOnce(keep: bool, v: Node, d: Node, s: Node, n: nat, j: nat)
    requires s.Sequence? && j < n <= |s.items| && Chain(keep, v, d, s, n, IdOf(s.items[j]))
    requires forall i :: 0 <= i < n && i != j ==> IdOf(s.items[i]) != IdOf(s.items[j])
    ensures Dressed(keep, v, d, s.items[j])
    decreases n
  {
    var id := IdOf(s.items[j]);
    if j == n - 1 {
      var v0 :| Chain(keep, v0, d, s, n - 1, id) && Dressed(keep, v, v0, s.items[n - 1]);
      ChainNone(keep, v0, d, s, n - 1, id);
    } else {
      ChainOnce(keep, v, d, s, n - 1, j);
    }
  }

  // ---- What a merged tree shows ----

  /** An item of the merged list: the source's, or with `keep` also that merged with some item of the destination. */
  ghost predicate ItemMerges(keep: bool, c: Content, ds: seq<Content>, s: Content) {
    c == s || (keep && exists j :: 0 <= j < |ds| && Merges(keep, c, ds[j], s))
  }

  ghost predicate ItemsMerge(keep: bool, cs: seq<Content>, ds: seq<Content>, items: seq<Node>) {
    |cs| == |items| && forall j :: 0 <= j < |items| ==> ItemMerges(keep, cs[j], ds, ContentOf(items[j]))
  }

  lemma ListMerges(keep: bool, cs: seq<Content>, ds: seq<Content>, items: seq<Node>)
    requires ItemsMerge(keep, cs, ds, items)
    ensures Merges(keep, List(cs), List(ds), List(Contents(items)))
  {
    if !keep { assert cs == Contents(items); }
  }

  ghost predicate BelowOk(keep: bool, items: seq<Node>) {
    forall i :: 0 <= i < |items| ==> IdsOk(!keep, items[i])
  }

  /** What a subtree inherits. */
  lemma ChildOf(n: Node, key: string, agree: bool)
    requires n.Mapping? && key in Keys(n.pairs)
    ensures ValueOf(n.pairs, key) < n
    ensures IdsOk(agree, n) ==> IdsOk(agree, ValueOf(n.pairs, key))
    ensures PlainPairs(n.pairs) ==> Plain(ValueOf(n.pairs, key))
  {
  }

  /** The merged tree shows what merging shows. */
  lemma {:induction false} DressedMerges(keep: bool, r: Node, d: Node, s: Node)
    requires Dressed(keep, r, d, s) && IdsOk(!keep, s)
    ensures Merges(keep, ContentOf(r), ContentOf(d), ContentOf(s))
    decreases s, 1, 0
  {
    if d.Mapping? && s.Mapping? {
      PairsMerge(keep, r, d, s);
    } else if d.Sequence? && s.Sequence? {
      var at :| DressedItems(keep, r.items, d.items, s, at);
      forall j | 0 <= j < |s.items| ensures ItemMerges(keep, ContentOf(r.items[j]), Contents(d.items), ContentOf(s.items[j])) {
        ItemMergesToo(keep, r.items, d.items, s, at, j);
      }
      ListMerges(keep, Contents(r.items), Contents(d.items), s.items);
    }
  }

  /** The values of a mapping. */
  lemma ValueMerges(keep: bool, r: Node, d: Node, s: Node, stay: seq<int>, more: seq<int>, key: string)
    requires r.Mapping? && d.Mapping? && s.Mapping? && DressedPairs(keep, r.pairs, d.pairs, s, stay, more) && IdsOk(!keep, s)
    ensures key in Keys(r.pairs) <==> key in Keys(s.pairs) || (keep && key in Keys(d.pairs))
    ensures key in Keys(s.pairs) && key in Keys(d.pairs) ==>
              Merges(keep, ContentOf(ValueOf(r.pairs, key)), ContentOf(ValueOf(d.pairs, key)), ContentOf(ValueOf(s.pairs, key)))
    ensures key in Keys(s.pairs) && key !in Keys(d.pairs) ==> ValueOf(r.pairs, key) == ValueOf(s.pairs, key)
    ensures key !in Keys(s.pairs) && key in Keys(d.pairs) && keep ==> ValueOf(r.pairs, key) == ValueOf(d.pairs, key)
    decreases s, 0, 0
  {
    if key in Keys(r.pairs) { NoOtherKey(keep, r.pairs, d.pairs, s, stay, more, key); }
    if key in Keys(s.pairs) {
      if key in Keys(d.pairs) {
        SharedValue(keep, r.pairs, d.pairs, s, stay, more, key);
        ChildOf(s, key, !keep);
        DressedMerges(keep, ValueOf(r.pairs, key), ValueOf(d.pairs, key), ValueOf(s.pairs, key));
      } else {
        NewValue(keep, r.pairs, d.pairs, s, stay, more, key);
      }
    } else if keep && key in Keys(d.pairs) {
      KeptValue(keep, r.pairs, d.pairs, s, stay, more, key);
    }
  }

  lemma PairsMerge(keep: bool, r: Node, d: Node, s: Node)
    requires d.Mapping? && s.Mapping? && Dressed(keep, r, d, s) && IdsOk(!keep, s)
    ensures Merges(keep, ContentOf(r), ContentOf(d), ContentOf(s))
    decreases s, 0, 1
  {
    var stay, more :| DressedPairs(keep, r.pairs, d.pairs, s, stay, more);
    forall key { ValueMerges(keep, r, d, s, stay, more, key); }
    if !keep {
      forall key | key in Keys(s.pairs) ensures key in Keys(r.pairs) && ContentOf(ValueOf(r.pairs, key)) == ContentOf(ValueOf(s.pairs, key)) {
      }
      assert ContentOf(r).entries == ContentOf(s).entries;
    }
  }

  /** Without `keep`, an item with an id shows the last source item with that id. */
  lemma {:induction false} ChainShowsLast(v: Node, d: Node, s: Node, n: nat, j: nat)
    requires s.Sequence? && j < n <= |s.items| && BelowOk(false, s.items) && Chain(false, v, d, s, n, IdOf(s.items[j]))
    ensures ContentOf(v) == ContentOf(s.items[LastWith(s.items, n, IdOf(s.items[j]))])
    decreases s, 0, n
  {
    var id := IdOf(s.items[j]);
    if IdOf(s.items[n - 1]) == id {
      var v0 :| Chain(false, v0, d, s, n - 1, id) && Dressed(false, v, v0, s.items[n - 1]);
      DressedMerges(false, v, v0, s.items[n - 1]);
    } else {
      ChainShowsLast(v, d, s, n - 1, j);
    }
  }

  lemma MergedItem(keep: bool, c: Content, d: seq<Node>, i: nat, s: Content)
    requires i < |d| && Merges(keep, c, ContentOf(d[i]), s)
    ensures ItemMerges(keep, c, Contents(d), s)
  {
    assert Contents(d)[i] == ContentOf(d[i]);
  }

  lemma TwoAgree(items: seq<Node>, j: nat, k: nat)
    requires j <= k < |items| && SameIdsOk(true, items) && IdOf(items[j]) != "" && IdOf(items[k]) == IdOf(items[j])
    ensures ContentOf(items[k]) == ContentOf(items[j])
  {
  }

  lemma SharedItemMerges(keep: bool, r: Node, d: seq<Node>, s: Node, i: nat, j: nat)
    requires s.Sequence? && j < |s.items| && i < |d| && IdsOk(!keep, s) && IdOf(s.items[j]) != ""
    requires Chain(keep, r, d[i], s, |s.items|, IdOf(s.items[j]))
    ensures ItemMerges(keep, ContentOf(r), Contents(d), ContentOf(s.items[j]))
    decreases s, 0, |s.items| + 1
  {
    if keep {
      ChainOnce(keep, r, d[i], s, |s.items|, j);
      DressedMerges(keep, r, d[i], s.items[j]);
      MergedItem(keep, ContentOf(r), d, i, ContentOf(s.items[j]));
    } else {
      ChainShowsLast(r, d[i], s, |s.items|, j);
      LastHasId(s.items, |s.items|, j);
      TwoAgree(s.items, j, LastWith(s.items, |s.items|, IdOf(s.items[j])));
    }
  }

  lemma ItemMergesToo(keep: bool, r: seq<Node>, d: seq<Node>, s: Node, at: seq<int>, j: nat)
    requires s.Sequence? && DressedItems(keep, r, d, s, at) && j < |s.items| && IdsOk(!keep, s)
    ensures ItemMerges(keep, ContentOf(r[j]), Contents(d), ContentOf(s.items[j]))
    decreases s, 0, |s.items| + 2
  {
    var i := at[j];
    assert DressedItem(keep, r[j], d, s, i, j);
    if 0 <= i < |d| {
      if ById(d, s.items) && IsShared(d, s.items[j]) {
        SharedItemMerges(keep, r[j], d, s, i, j);
      } else {
        DressedMerges(keep, r[j], d[i], s.items[j]);
        MergedItem(keep, ContentOf(r[j]), d, i, ContentOf(s.items[j]));
      }
    }
  }

  // ---- Tags ----

  ghost predicate PlainPairs(pairs: seq<Pair>) {
    forall i :: 0 <= i < |pairs| ==> Plain(pairs[i].val)
  }

  ghost predicate PlainItems(items: seq<Node>) {
    forall i :: 0 <= i < |items| ==> Plain(items[i])
  }

  lemma {:induction false} DressedPlain(keep: bool, r: Node, d: Node, s: Node)
    requires Dressed(keep, r, d, s) && Plain(d) && Plain(s)
    ensures Plain(r)
    decreases s, 1, 0
  {
    if d.Mapping? && s.Mapping? {
      var stay, more :| DressedPairs(keep, r.pairs, d.pairs, s, stay, more);
      PairsPlain(keep, r.pairs, d.pairs, s, stay, more);
    } else if d.Sequence? && s.Sequence? {
      var at :| DressedItems(keep, r.items, d.items, s, at);
      ItemsPlain(keep, r.items, d.items, s, at);
    }
  }

  lemma PairsPlain(keep: bool, r: seq<Pair>, d: seq<Pair>, s: Node, stay: seq<int>, more: seq<int>)
    requires s.Mapping? && DressedPairs(keep, r, d, s, stay, more) && PlainPairs(d) && PlainPairs(s.pairs)
    ensures PlainPairs(r)
    decreases s, 0, 0
  {
    forall k | 0 <= k < |r| ensures Plain(r[k].val) {
      if k < |stay| {
        assert DressedPair(keep, r[k], d[stay[k]], s);
        if d[stay[k]].key in Keys(s.pairs) {
          ChildOf(s, d[stay[k]].key, true);
          DressedPlain(keep, r[k].val, d[stay[k]].val, ValueOf(s.pairs, d[stay[k]].key));
        }
      } else {
        var m := k - |stay|;
        assert NewPair(r[|stay| + m], s.pairs, s.pairs[more[m]].key);
        ChildOf(s, s.pairs[more[m]].key, true);
      }
    }
  }

  lemma ItemsPlain(keep: bool, r: seq<Node>, d: seq<Node>, s: Node, at: seq<int>)
    requires s.Sequence? && DressedItems(keep, r, d, s, at) && PlainItems(d) && PlainItems(s.items)
    ensures PlainItems(r)
    decreases s, 0, |s.items| + 1
  {
    forall j | 0 <= j < |r| ensures Plain(r[j]) {
      assert DressedItem(keep, r[j], d, s, at[j], j);
      if 0 <= at[j] < |d| {
        if ById(d, s.items) && IsShared(d, s.items[j]) {
          ChainPlain(keep, r[j], d[at[j]], s, |s.items|, IdOf(s.items[j]));
        } else {
          DressedPlain(keep, r[j], d[at[j]], s.items[j]);
        }
      }
    }
  }

  lemma {:induction false} ChainPlain(keep: bool, v: Node, d: Node, s: Node, n: nat, id: string)
    requires s.Sequence? && n <= |s.items| && Chain(keep, v, d, s, n, id) && Plain(d) && PlainItems(s.items)
    ensures Plain(v)
    decreases s, 0, n
  {
    if n > 0 {
      if IdOf(s.items[n - 1]) == id {
        var v0 :| Chain(keep, v0, d, s, n - 1, id) && Dressed(keep, v, v0, s.items[n - 1]);
        ChainPlain(keep, v0, d, s, n - 1, id);
        DressedPlain(keep, v, v0, s.items[n - 1]);
      } else {
        ChainPlain(keep, v, d, s, n - 1, id);
      }
    }
  }

  // ---- Along paths ----

  /** The subtree at a path of keys. */
  ghost function NodeAt(n: Node, path: seq<string>): Option<Node> {
    if path == [] then Some(n)
    else if n.Mapping? && path[0] in Keys(n.pairs) then NodeAt(ValueOf(n.pairs, path[0]), path[1..])
    else None
  }

  /**
    At every path that both trees have, the merged tree has the destination's comments
    and looks as described; at a path that only the source has, it is the source's.
  */
  lemma {:induction false} LookAlongPaths(keep: bool, r: Node, d: Node, s: Node, path: seq<string>)
    requires Dressed(keep, r, d, s) && NodeAt(s, path).Some?
    ensures NodeAt(r, path).Some?
    ensures NodeAt(d, path).Some? ==>
              && Dressed(keep, NodeAt(r, path).value, NodeAt(d, path).value, NodeAt(s, path).value)
              && NodeAt(r, path).value.note == NodeAt(d, path).value.note
    ensures NodeAt(d, path).None? ==> NodeAt(r, path) == NodeAt(s, path)
    decreases |path|
  {
    if path == [] {
      DressedNote(keep, r, d, s);
    } else if d.Mapping? {
      var stay, more :| DressedPairs(keep, r.pairs, d.pairs, s, stay, more);
      if path[0] in Keys(d.pairs) {
        SharedValue(keep, r.pairs, d.pairs, s, stay, more, path[0]);
        LookAlongPaths(keep, ValueOf(r.pairs, path[0]), ValueOf(d.pairs, path[0]), ValueOf(s.pairs, path[0]), path[1..]);
      } else {
        NewValue(keep, r.pairs, d.pairs, s, stay, more, path[0]);
      }
    }
  }
}
