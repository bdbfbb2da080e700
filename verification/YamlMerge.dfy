/**
  Writing a configuration into the user's own YAML file: values come from the source
  tree, comments and key order from the destination tree.
*/
module YamlMerge {
  import opened Base
  import opened YamlContent
  import opened YamlLook

  /** Kind, tag and value of the source, comments of the destination. */
  function CopyValue(dst: Node, src: Node): (r: Node)
    ensures ContentOf(r) == ContentOf(src) && r.note == dst.note
  {
    src.(note := dst.note)
  }

  /**
    The merged tree looks like the destination with the source's values. It shows the
    source's content; with `keep`, mappings that meet show the destination's other keys
    too. Items with one id must agree, and with `keep` be one item: an item of the
    destination cannot become two.
  */
  method ApplyYAML(dst: Node, src: Node, keep: bool) returns (r: Node)
    ensures r.note == dst.note && Dressed(keep, r, dst, src)
    ensures IdsOk(!keep, src) ==> Merges(keep, ContentOf(r), ContentOf(dst), ContentOf(src))
    ensures Plain(dst) && Plain(src) ==> Plain(r)
    ensures !keep && IdsAgree(src) && Plain(dst) && Plain(src) ==> TaggedOf(r) == TaggedOf(src)
    decreases src, 1, 0
  {
    if src.Mapping? && dst.Mapping? {
      r := ApplyMapping(dst, src, keep);
    } else if src.Sequence? && dst.Sequence? {
      r := ApplySequence(dst, src, keep);
    } else {
      r := CopyValue(dst, src);
    }
    if IdsOk(!keep, src) { DressedMerges(keep, r, dst, src); }
    if Plain(dst) && Plain(src) {
      DressedPlain(keep, r, dst, src);
      PlainTags(src);
      PlainTags(r);
    }
  }

  // ---- Mappings ----

  /** The destination's own tag and order stay; with `keep`, so do the keys the source does not have. */
  method ApplyMapping(dst: Node, src: Node, keep: bool) returns (r: Node)
    requires dst.Mapping? && src.Mapping?
    ensures Dressed(keep, r, dst, src)
    ensures r.Mapping? && r.note == dst.note && r.tag == dst.tag
    ensures IdsOk(!keep, src) ==> Merges(keep, ContentOf(r), ContentOf(dst), ContentOf(src))
    ensures keep ==> forall key :: key in Entries(dst.pairs) && key !in Entries(src.pairs) ==>
                                     key in Entries(r.pairs) && Entries(r.pairs)[key] == Entries(dst.pairs)[key]
    ensures PlainPairs(dst.pairs) && PlainPairs(src.pairs) ==> PlainPairs(r.pairs)
    ensures !keep && IdsAgree(src) && PlainPairs(dst.pairs) && PlainPairs(src.pairs) ==>
              (TaggedOf(r) == TaggedOf(src) <==> dst.tag == src.tag)
    decreases src, 0, 1
  {
    var srcVal := Table(src.pairs);
    var content, used, stay := MergeShared(dst.pairs, src, srcVal, keep);
    TakeAll(dst.pairs);
    ghost var start := content;
    ghost var more;
    content, more := AppendUnused(src.pairs, srcVal, used, content, Keys(dst.pairs));
    r := Mapping(dst.note, dst.tag, content);
    PairsTogether(keep, start, content[|start|..], dst.pairs, src, stay, more);
    MappingFacts(keep, r, dst, src, stay, more);
  }

  lemma PairsTogether(keep: bool, front: seq<Pair>, back: seq<Pair>, d: seq<Pair>, s: Node, stay: seq<int>, more: seq<int>)
    requires s.Mapping? && Staying(keep, front, d, s, |d|, stay) && Appended(back, s.pairs, Keys(d), |s.pairs|, more)
    ensures DressedPairs(keep, front + back, d, s, stay, more)
  {
    forall k | 0 <= k < |more| ensures 0 <= more[k] < |s.pairs| && NewPair((front + back)[|stay| + k], s.pairs, s.pairs[more[k]].key) {
      assert (front + back)[|stay| + k] == back[k];
    }
  }

  /** What follows for the mapping as a whole. */
  lemma MappingFacts(keep: bool, r: Node, d: Node, s: Node, stay: seq<int>, more: seq<int>)
    requires d.Mapping? && s.Mapping? && r.Mapping? && r.note == d.note && r.tag == d.tag
    requires DressedPairs(keep, r.pairs, d.pairs, s, stay, more)
    ensures Dressed(keep, r, d, s)
    ensures IdsOk(!keep, s) ==> Merges(keep, ContentOf(r), ContentOf(d), ContentOf(s))
    ensures keep ==> forall key :: key in Entries(d.pairs) && key !in Entries(s.pairs) ==>
                                     key in Entries(r.pairs) && Entries(r.pairs)[key] == Entries(d.pairs)[key]
    ensures PlainPairs(d.pairs) && PlainPairs(s.pairs) ==> PlainPairs(r.pairs)
    ensures !keep && IdsAgree(s) && PlainPairs(d.pairs) && PlainPairs(s.pairs) ==> (TaggedOf(r) == TaggedOf(s) <==> d.tag == s.tag)
  {
    if IdsOk(!keep, s) { DressedMerges(keep, r, d, s); }
    if keep {
      forall key | key in Keys(d.pairs) && key !in Keys(s.pairs) ensures key in Keys(r.pairs) && ValueOf(r.pairs, key) == ValueOf(d.pairs, key) {
        KeptValue(keep, r.pairs, d.pairs, s, stay, more, key);
      }
    }
    if PlainPairs(d.pairs) && PlainPairs(s.pairs) {
      PairsPlain(keep, r.pairs, d.pairs, s, stay, more);
      if !keep && IdsAgree(s) { SameButTag(r, s); }
    }
  }

  /** Two mappings with the same content and plain values differ at most in their own tags. */
  lemma SameButTag(a: Node, b: Node)
    requires a.Mapping? && b.Mapping? && PlainPairs(a.pairs) && PlainPairs(b.pairs) && ContentOf(a) == ContentOf(b)
    ensures TaggedOf(a) == TaggedOf(b) <==> a.tag == b.tag
  {
    PlainEntries(a);
    PlainEntries(b);
  }

  lemma PlainEntries(n: Node)
    requires n.Mapping? && PlainPairs(n.pairs)
    ensures TaggedOf(n) == WithTags(ContentOf(n)).(tag := n.tag)
  {
    var m := Mapping(n.note, MAP_TAG, n.pairs);
    PlainTags(m);
    assert ContentOf(m) == ContentOf(n);
    assert TaggedOf(n).entries == TaggedOf(m).entries;
  }

  /** The tag of a mapping that is on both sides is not the source's: for example `!mine {}` merged with `{}`. */
  method OwnTagStays() returns (dst: Node, src: Node, r: Node)
    ensures IdsUnique(src) && ContentOf(r) == ContentOf(src) && TaggedOf(r) != TaggedOf(src)
  {
    dst, src := Mapping("", "!mine", []), Mapping("", MAP_TAG, []);
    UniqueIdsAgree(src);
    r := ApplyMapping(dst, src, false);
  }

  /** The pairs made of the first `n` of the destination. */
  ghost predicate Staying(keep: bool, content: seq<Pair>, d: seq<Pair>, s: Node, n: nat, stay: seq<int>)
    requires s.Mapping? && n <= |d|
  {
    && ListsPositions(stay, StayingAt(keep, d, Keys(s.pairs), n)) && |content| == |stay|
    && forall k :: 0 <= k < |stay| ==> 0 <= stay[k] < |d| && DressedPair(keep, content[k], d[stay[k]], s)
  }

  lemma StayingMore(keep: bool, content: seq<Pair>, d: seq<Pair>, s: Node, n: nat, stay: seq<int>, p: Pair)
    requires s.Mapping? && n < |d| && Staying(keep, content, d, s, n, stay)
    ensures (keep || d[n].key in Keys(s.pairs)) && DressedPair(keep, p, d[n], s) ==> Staying(keep, content + [p], d, s, n + 1, stay + [n])
    ensures !keep && d[n].key !in Keys(s.pairs) ==> Staying(keep, content, d, s, n + 1, stay)
  {
    var keys := Keys(s.pairs);
    if keep || d[n].key in keys {
      PositionsMore(stay, StayingAt(keep, d, keys, n), n);
      assert StayingAt(keep, d, keys, n + 1) == StayingAt(keep, d, keys, n) + {n};
    } else {
      assert StayingAt(keep, d, keys, n + 1) == StayingAt(keep, d, keys, n);
    }
  }

  /** The source's keys that the first `n` pairs have. */
  ghost predicate UsedUpTo(used: set<string>, d: seq<Pair>, keys: set<string>, n: nat)
    requires n <= |d|
  {
    used == Keys(d[..n]) * keys
  }

  lemma UsedMore(used: set<string>, d: seq<Pair>, keys: set<string>, n: nat)
    requires n < |d| && UsedUpTo(used, d, keys, n)
    ensures UsedUpTo(if d[n].key in keys then used + {d[n].key} else used, d, keys, n + 1)
  {
    TakeSnoc(d, n);
    KeysSnoc(d[..n], d[n]);
  }

  /** The destination's pairs, each with the source's value merged in, or kept, or dropped. */
  method MergeShared(dst: seq<Pair>, src: Node, srcVal: map<string, Node>, keep: bool)
    returns (content: seq<Pair>, used: set<string>, ghost stay: seq<int>)
    requires src.Mapping? && srcVal.Keys == Keys(src.pairs)
    requires forall key :: key in srcVal ==> srcVal[key] == ValueOf(src.pairs, key)
    ensures Staying(keep, content, dst, src, |dst|, stay) && used == Keys(dst) * Keys(src.pairs)
    decreases src, 0, 0, 1
  {
    used, content, stay := {}, [], [];
    for i := 0 to |dst|
      invariant Staying(keep, content, dst, src, i, stay) && UsedUpTo(used, dst, Keys(src.pairs), i)
    {
      UsedMore(used, dst, Keys(src.pairs), i);
      content, used, stay := MergePair(dst, i, src, srcVal, keep, content, used, stay);
    }
    TakeAll(dst);
  }

  method MergePair(dst: seq<Pair>, i: nat, src: Node, srcVal: map<string, Node>, keep: bool, content: seq<Pair>, used: set<string>, ghost stay: seq<int>)
    returns (content': seq<Pair>, used': set<string>, ghost stay': seq<int>)
    requires src.Mapping? && srcVal.Keys == Keys(src.pairs)
    requires forall key :: key in srcVal ==> srcVal[key] == ValueOf(src.pairs, key)
    requires i < |dst| && Staying(keep, content, dst, src, i, stay)
    ensures Staying(keep, content', dst, src, i + 1, stay')
    ensures used' == if dst[i].key in Keys(src.pairs) then used + {dst[i].key} else used
    decreases src, 0, 0, 0
  {
    var key := dst[i].key;
    if key !in srcVal {
      StayingMore(keep, content, dst, src, i, stay, dst[i]);
      return if keep then content + [dst[i]] else content, used, if keep then stay + [i] else stay;
    }
    ChildOf(src, key, !keep);
    var v := ApplyYAML(dst[i].val, srcVal[key], keep);
    StayingMore(keep, content, dst, src, i, stay, Pair(key, v));
    content', used', stay' := content + [Pair(key, v)], used + {key}, stay + [i];
  }

  /** The pairs made of the first `n` of the source. */
  ghost predicate Appended(added: seq<Pair>, s: seq<Pair>, keys: set<string>, n: nat, more: seq<int>)
    requires n <= |s|
  {
    && ListsPositions(more, NewAt(s, keys, n)) && |added| == |more|
    && forall k :: 0 <= k < |more| ==> 0 <= more[k] < |s| && NewPair(added[k], s, s[more[k]].key)
  }

  lemma AppendedMore(added: seq<Pair>, s: seq<Pair>, keys: set<string>, n: nat, more: seq<int>, p: Pair)
    requires n < |s| && Appended(added, s, keys, n, more)
    ensures s[n].key in keys ==> Appended(added, s, keys, n + 1, more)
    ensures s[n].key !in keys && NewPair(p, s, s[n].key) ==> Appended(added + [p], s, keys, n + 1, more + [n])
  {
    if s[n].key in keys {
      assert NewAt(s, keys, n + 1) == NewAt(s, keys, n);
    } else {
      PositionsMore(more, NewAt(s, keys, n), n);
      assert NewAt(s, keys, n + 1) == NewAt(s, keys, n) + {n};
    }
  }

  /** The source's pairs whose keys were not used. */
  method AppendUnused(src: seq<Pair>, srcVal: map<string, Node>, used: set<string>, start: seq<Pair>, ghost keys: set<string>)
    returns (content: seq<Pair>, ghost more: seq<int>)
    requires srcVal.Keys == Keys(src) && (forall key :: key in srcVal ==> srcVal[key] == ValueOf(src, key)) && used == keys * Keys(src)
    ensures start <= content && Appended(content[|start|..], src, keys, |src|, more)
  {
    content, more := start, [];
    for i := 0 to |src|
      invariant start <= content && Appended(content[|start|..], src, keys, i, more)
    {
      KeyIn(src, i);
      var p := Pair(src[i].key, srcVal[src[i].key]);
      AppendedMore(content[|start|..], src, keys, i, more, p);
      if src[i].key !in used {
        assert (content + [p])[|start|..] == content[|start|..] + [p];
        content, more := content + [p], more + [i];
      }
    }
  }

  // ---- Sequences ----

  method ApplySequence(dst: Node, src: Node, keep: bool) returns (r: Node)
    requires dst.Sequence? && src.Sequence?
    ensures Dressed(keep, r, dst, src)
    ensures r.Sequence? && r.note == dst.note && r.tag == dst.tag
    ensures IdsOk(!keep, src) ==> Merges(keep, ContentOf(r), ContentOf(dst), ContentOf(src))
    ensures !keep && BelowOk(keep, src.items) ==> (ContentOf(r) == ContentOf(src) <==> AgreeOn(src.items, dst.items))
    ensures PlainItems(dst.items) && PlainItems(src.items) ==> PlainItems(r.items)
    decreases src, 0, 1
  {
    var items;
    ghost var at;
    if HasIds(src.items) || HasIds(dst.items) {
      items, at := ApplyIdentified(dst, src, keep);
    } else {
      items, at := ApplyPositional(dst, src, keep);
    }
    r := Sequence(dst.note, dst.tag, items);
    SequenceFacts(keep, r, dst, src, at);
  }

  lemma SequenceFacts(keep: bool, r: Node, d: Node, s: Node, at: seq<int>)
    requires d.Sequence? && s.Sequence? && r.Sequence? && r.note == d.note && r.tag == d.tag
    requires DressedItems(keep, r.items, d.items, s, at)
    ensures Dressed(keep, r, d, s)
    ensures IdsOk(!keep, s) ==> Merges(keep, ContentOf(r), ContentOf(d), ContentOf(s))
    ensures !keep && BelowOk(keep, s.items) ==> (ContentOf(r) == ContentOf(s) <==> AgreeOn(s.items, d.items))
    ensures PlainItems(d.items) && PlainItems(s.items) ==> PlainItems(r.items)
  {
    if IdsOk(!keep, s) { DressedMerges(keep, r, d, s); }
    if PlainItems(d.items) && PlainItems(s.items) { ItemsPlain(keep, r.items, d.items, s, at); }
    if !keep && BelowOk(keep, s.items) {
      ItemsDecided(r.items, d.items, s, at);
      RepeatedIdsIff(Contents(r.items), s.items, d.items);
    }
  }

  /** Which item of the source decides what item `j` shows: the last one with its id, if the destination has that id. */
  function Decides(items: seq<Node>, d: seq<Node>, j: nat): (i: nat)
    requires j < |items|
    ensures i < |items|
  {
    if IsShared(d, items[j]) then LastWith(items, |items|, IdOf(items[j])) else j
  }

  /** Items that have the same id, one that the destination has, have the same content. */
  ghost predicate AgreeOn(items: seq<Node>, d: seq<Node>) {
    forall i, j :: 0 <= i < j < |items| && IsShared(d, items[i]) && IdOf(items[i]) == IdOf(items[j]) ==>
                     ContentOf(items[i]) == ContentOf(items[j])
  }

  lemma DecidesSame(items: seq<Node>, d: seq<Node>, i: nat, j: nat)
    requires i < |items| && j < |items| && IsShared(d, items[i]) && IdOf(items[i]) == IdOf(items[j])
    ensures Decides(items, d, i) == Decides(items, d, j)
  {
  }

  lemma DecidesLater(items: seq<Node>, d: seq<Node>, j: nat)
    requires j < |items|
    ensures var i := Decides(items, d, j);
            i == j || (j < i && IsShared(d, items[j]) && IdOf(items[i]) == IdOf(items[j]))
  {
    LastHasId(items, |items|, j);
  }

  /** With repeated ids the content is the source's exactly when items that share one id of the destination agree. */
  lemma RepeatedIdsIff(cs: seq<Content>, items: seq<Node>, d: seq<Node>)
    requires |cs| == |items| && forall j :: 0 <= j < |items| ==> cs[j] == ContentOf(items[Decides(items, d, j)])
    ensures cs == Contents(items) <==> AgreeOn(items, d)
  {
    if cs == Contents(items) {
      forall i, j | 0 <= i < j < |items| && IsShared(d, items[i]) && IdOf(items[i]) == IdOf(items[j])
        ensures ContentOf(items[i]) == ContentOf(items[j])
      {
        DecidesSame(items, d, i, j);
        assert cs[i] == cs[j];
      }
    }
    if AgreeOn(items, d) {
      forall j | 0 <= j < |items| ensures cs[j] == ContentOf(items[j]) {
        DecidesLater(items, d, j);
      }
    }
  }

  /** Without `keep`, every item shows the source item that decides. */
  lemma ItemsDecided(r: seq<Node>, d: seq<Node>, s: Node, at: seq<int>)
    requires s.Sequence? && DressedItems(false, r, d, s, at) && BelowOk(false, s.items)
    ensures forall j :: 0 <= j < |s.items| ==> ContentOf(r[j]) == ContentOf(s.items[Decides(s.items, d, j)])
  {
    forall j | 0 <= j < |s.items| ensures ContentOf(r[j]) == ContentOf(s.items[Decides(s.items, d, j)]) {
      ItemDecided(r, d, s, at, j);
    }
  }

  lemma ItemDecided(r: seq<Node>, d: seq<Node>, s: Node, at: seq<int>, j: nat)
    requires s.Sequence? && DressedItems(false, r, d, s, at) && BelowOk(false, s.items) && j < |s.items|
    ensures ContentOf(r[j]) == ContentOf(s.items[Decides(s.items, d, j)])
  {
    var i := at[j];
    assert Partner(d, s.items, s.items[j], at[..j], i) && DressedItem(false, r[j], d, s, i, j);
    assert IsShared(d, s.items[j]) ==> ById(d, s.items);
    if 0 <= i < |d| {
      if IsShared(d, s.items[j]) {
        ChainShowsLast(r[j], d[i], s, |s.items|, j);
      } else {
        DressedMerges(false, r[j], d[i], s.items[j]);
      }
    }
  }

  /** Scalars look for an unused scalar with their value, everything else takes the first unused item. */
  method MatchItem(olds: seq<Node>, used: seq<bool>, src: Node) returns (at: Option<nat>)
    requires |used| == |olds|
    ensures at.Some? ==> at.value < |olds| && !used[at.value] && (src.Scalar? ==> olds[at.value].Scalar? && olds[at.value].value == src.value)
    ensures forall i :: 0 <= i < (if at.Some? then at.value else |olds|) ==>
                          used[i] || (src.Scalar? && !(olds[i].Scalar? && olds[i].value == src.value))
  {
    for i := 0 to |olds|
      invariant forall j :: 0 <= j < i ==> used[j] || (src.Scalar? && !(olds[j].Scalar? && olds[j].value == src.value))
    {
      if !used[i] && (!src.Scalar? || (olds[i].Scalar? && olds[i].value == src.value)) {
        return Some(i);
      }
    }
    at := None;
  }

  /** The first items are done. */
  ghost predicate Placed(keep: bool, r: seq<Node>, d: seq<Node>, s: Node, at: seq<int>)
    requires s.Sequence?
  {
    && |r| == |at| <= |s.items|
    && forall j :: 0 <= j < |r| ==> Partner(d, s.items, s.items[j], at[..j], at[j]) && DressedItem(keep, r[j], d, s, at[j], j)
  }

  lemma PlacedMore(keep: bool, r: seq<Node>, d: seq<Node>, s: Node, at: seq<int>, v: Node, i: int)
    requires s.Sequence? && Placed(keep, r, d, s, at) && |r| < |s.items|
    requires Partner(d, s.items, s.items[|r|], at, i) && DressedItem(keep, v, d, s, i, |r|)
    ensures Placed(keep, r + [v], d, s, at + [i])
  {
    var at' := at + [i];
    assert at'[..|r|] == at;
    assert forall j :: 0 <= j < |r| ==> at'[..j] == at[..j];
  }

  method ApplyPositional(dst: Node, src: Node, keep: bool) returns (items: seq<Node>, ghost at: seq<int>)
    requires dst.Sequence? && src.Sequence? && !ById(dst.items, src.items)
    ensures DressedItems(keep, items, dst.items, src, at)
    decreases src, 0, 0
  {
    items, at := [], [];
    var used := seq(|dst.items|, i => false);
    for j := 0 to |src.items|
      invariant |items| == j && |used| == |dst.items| && Placed(keep, items, dst.items, src, at)
      invariant forall i :: 0 <= i < |used| ==> (used[i] <==> i in at)
    {
      var found := MatchItem(dst.items, used, src.items[j]);
      assert !(IsShared(dst.items, src.items[j]));
      if found.Some? {
        var n := ApplyYAML(dst.items[found.value], src.items[j], keep);
        PlacedMore(keep, items, dst.items, src, at, n, found.value);
        items, at := items + [n], at + [found.value as int];
        used := used[found.value := true];
      } else {
        PlacedMore(keep, items, dst.items, src, at, src.items[j], -1);
        items, at := items + [src.items[j]], at + [-1];
      }
    }
  }

  // ---- Items with ids ----

  /** An item of the new sequence: an item of the destination with an id, or a tree of its own. */
  datatype Slot = Old(id: string) | New(n: Node)

  function AnonymousAt(items: seq<Node>, n: nat): set<int>
    requires n <= |items|
  {
    set i | 0 <= i < n && IdOf(items[i]) == ""
  }

  /** The items with an id among the first `n`, the last one of each, and the items without, in order. */
  ghost predicate Split(items: seq<Node>, n: nat, byId: map<string, Node>, anonymous: seq<Node>, pos: seq<int>)
    requires n <= |items|
  {
    && (forall id :: id in byId <==> id != "" && HasId(items[..n], id))
    && (forall id :: id in byId ==> exists i :: IsLastWithId(items[..n], id, i) && byId[id] == items[i])
    && ListsPositions(pos, AnonymousAt(items, n)) && |anonymous| == |pos|
    && forall k :: 0 <= k < |pos| ==> 0 <= pos[k] < n && anonymous[k] == items[pos[k]]
  }

  /** Splits the destination into items with an id, the last one of each, and items without. */
  method SplitById(items: seq<Node>) returns (byId: map<string, Node>, anonymous: seq<Node>, ghost pos: seq<int>)
    ensures Split(items, |items|, byId, anonymous, pos)
  {
    byId, anonymous, pos := map[], [], [];
    for n := 0 to |items|
      invariant Split(items, n, byId, anonymous, pos)
    {
      var id := IdOf(items[n]);
      if id != "" {
        SplitNamed(items, n, byId, anonymous, pos);
        byId := byId[id := items[n]];
      } else {
        SplitAnonymous(items, n, byId, anonymous, pos);
        anonymous, pos := anonymous + [items[n]], pos + [n];
      }
    }
  }

  lemma HasIdMore(items: seq<Node>, n: nat, id: string)
    requires n < |items|
    ensures HasId(items[..n + 1], id) <==> HasId(items[..n], id) || IdOf(items[n]) == id
  {
    if HasId(items[..n], id) {
      var i :| 0 <= i < n && IdOf(items[..n][i]) == id;
      assert items[..n + 1][i] == items[..n][i];
    }
    if IdOf(items[n]) == id { assert items[..n + 1][n] == items[n]; }
    if HasId(items[..n + 1], id) && IdOf(items[n]) != id {
      var i :| 0 <= i < n + 1 && IdOf(items[..n + 1][i]) == id;
      assert items[..n][i] == items[..n + 1][i];
    }
  }

  lemma LastMore(items: seq<Node>, n: nat, id: string, i: int)
    requires n < |items|
    ensures IsLastWithId(items[..n], id, i) && IdOf(items[n]) != id ==> IsLastWithId(items[..n + 1], id, i)
    ensures IdOf(items[n]) == id ==> IsLastWithId(items[..n + 1], id, n)
  {
  }

  lemma SplitNamed(items: seq<Node>, n: nat, byId: map<string, Node>, anonymous: seq<Node>, pos: seq<int>)
    requires n < |items| && Split(items, n, byId, anonymous, pos) && IdOf(items[n]) != ""
    ensures Split(items, n + 1, byId[IdOf(items[n]) := items[n]], anonymous, pos)
  {
    var byId' := byId[IdOf(items[n]) := items[n]];
    forall id { HasIdMore(items, n, id); }
    forall id | id in byId' ensures exists i :: IsLastWithId(items[..n + 1], id, i) && byId'[id] == items[i] {
      if id == IdOf(items[n]) {
        LastMore(items, n, id, n);
      } else {
        var i :| IsLastWithId(items[..n], id, i) && byId[id] == items[i];
        LastMore(items, n, id, i);
      }
    }
    assert AnonymousAt(items, n + 1) == AnonymousAt(items, n);
  }

  lemma SplitAnonymous(items: seq<Node>, n: nat, byId: map<string, Node>, anonymous: seq<Node>, pos: seq<int>)
    requires n < |items| && Split(items, n, byId, anonymous, pos) && IdOf(items[n]) == ""
    ensures Split(items, n + 1, byId, anonymous + [items[n]], pos + [n])
  {
    forall id { HasIdMore(items, n, id); }
    forall id | id in byId ensures exists i :: IsLastWithId(items[..n + 1], id, i) && byId[id] == items[i] {
      var i :| IsLastWithId(items[..n], id, i) && byId[id] == items[i];
      LastMore(items, n, id, i);
    }
    PositionsMore(pos, AnonymousAt(items, n), n);
    assert AnonymousAt(items, n + 1) == AnonymousAt(items, n) + {n};
  }

  /** Every id leads to the destination's item as the first `n` source items left it. */
  ghost predicate Led(keep: bool, byId: map<string, Node>, d: seq<Node>, s: Node, n: nat)
    requires s.Sequence? && n <= |s.items|
  {
    && (forall id :: id in byId <==> id != "" && HasId(d, id))
    && forall id, i :: id in byId && IsLastWithId(d, id, i) ==> Chain(keep, byId[id], d[i], s, n, id)
  }

  lemma LedAtFirst(keep: bool, d: seq<Node>, byId: map<string, Node>, anonymous: seq<Node>, pos: seq<int>, s: Node)
    requires s.Sequence? && Split(d, |d|, byId, anonymous, pos)
    ensures Led(keep, byId, d, s, 0)
  {
    assert d[..|d|] == d;
    forall id, i | id in byId && IsLastWithId(d, id, i) ensures byId[id] == d[i] {
      var k :| IsLastWithId(d, id, k) && byId[id] == d[k];
    }
  }

  lemma LedOn(keep: bool, byId: map<string, Node>, d: seq<Node>, s: Node, n: nat, v: Node)
    requires s.Sequence? && n < |s.items| && Led(keep, byId, d, s, n)
    ensures IdOf(s.items[n]) !in byId ==> Led(keep, byId, d, s, n + 1)
    ensures IdOf(s.items[n]) in byId && Dressed(keep, v, byId[IdOf(s.items[n])], s.items[n]) ==>
              Led(keep, byId[IdOf(s.items[n]) := v], d, s, n + 1)
  {
    var id := IdOf(s.items[n]);
    if id in byId && Dressed(keep, v, byId[id], s.items[n]) {
      forall i | IsLastWithId(d, id, i) ensures Chain(keep, v, d[i], s, n + 1, id) {
        assert Link(keep, v, d[i], s, n, id);
      }
    }
  }

  /** The slot of source item `j`. */
  ghost predicate SlotOk(keep: bool, slot: Slot, d: seq<Node>, s: Node, i: int, j: nat)
    requires s.Sequence? && j < |s.items|
  {
    if IsShared(d, s.items[j]) then slot == Old(IdOf(s.items[j])) && IsLastWithId(d, IdOf(s.items[j]), i)
    else slot.New? && if 0 <= i < |d| then Dressed(keep, slot.n, d[i], s.items[j]) else slot.n == s.items[j]
  }

  /** The slots after the first source items, and the partners of those items. */
  ghost predicate Slots(keep: bool, slots: seq<Slot>, d: seq<Node>, s: Node, at: seq<int>)
    requires s.Sequence?
  {
    && |slots| == |at| <= |s.items|
    && forall j :: 0 <= j < |slots| ==> Partner(d, s.items, s.items[j], at[..j], at[j]) && SlotOk(keep, slots[j], d, s, at[j], j)
  }

  lemma SlotsMore(keep: bool, slots: seq<Slot>, d: seq<Node>, s: Node, at: seq<int>, slot: Slot, i: int)
    requires s.Sequence? && Slots(keep, slots, d, s, at) && |slots| < |s.items|
    requires Partner(d, s.items, s.items[|slots|], at, i) && SlotOk(keep, slot, d, s, i, |slots|)
    ensures Slots(keep, slots + [slot], d, s, at + [i])
  {
    var at' := at + [i];
    assert at'[..|slots|] == at;
    assert forall j :: 0 <= j < |slots| ==> at'[..j] == at[..j];
  }

  /** The items without an id that are taken are the first `ai`. */
  ghost predicate TakenFirst(d: seq<Node>, pos: seq<int>, ai: int, at: seq<int>) {
    && 0 <= ai <= |pos| && ListsPositions(pos, AnonymousAt(d, |d|))
    && forall k :: 0 <= k < |pos| ==> (pos[k] in at <==> k < ai)
  }

  lemma NextAnonymous(d: seq<Node>, s: Node, pos: seq<int>, ai: int, at: seq<int>)
    requires TakenFirst(d, pos, ai, at)
    ensures ai < |pos| ==> 0 <= pos[ai] < |d| && FirstFree(true, d, s, at, pos[ai]) && TakenFirst(d, pos, ai + 1, at + [pos[ai]])
    ensures ai == |pos| ==> FirstFree(true, d, s, at, -1) && TakenFirst(d, pos, ai, at + [-1])
  {
    assert forall k :: 0 <= k < |pos| ==> pos[k] in pos && pos[k] in AnonymousAt(d, |d|);
    forall i | 0 <= i < |d| && IdOf(d[i]) == "" && (ai < |pos| ==> i < pos[ai]) ensures i in at {
      var k := ListedAt(pos, AnonymousAt(d, |d|), i);
    }
  }

  lemma SharedTaken(d: seq<Node>, pos: seq<int>, ai: int, at: seq<int>, i: int)
    requires TakenFirst(d, pos, ai, at) && 0 <= i < |d| && IdOf(d[i]) != ""
    ensures TakenFirst(d, pos, ai, at + [i])
  {
    assert forall k :: 0 <= k < |pos| ==> pos[k] in pos && pos[k] in AnonymousAt(d, |d|);
  }

  /**
    Items with an id go to the destination's item with that id, others to its items
    without one. Two source items with one id end up as one tree, shown twice.
  */
  method ApplyIdentified(dst: Node, src: Node, keep: bool) returns (items: seq<Node>, ghost at: seq<int>)
    requires dst.Sequence? && src.Sequence? && ById(dst.items, src.items)
    ensures DressedItems(keep, items, dst.items, src, at)
    ensures !keep && BelowOk(keep, src.items) ==>
              forall j :: 0 <= j < |src.items| ==> ContentOf(items[j]) == ContentOf(src.items[Decides(src.items, dst.items, j)])
    ensures keep && IdsOk(!keep, src) ==> ItemsMerge(keep, Contents(items), Contents(dst.items), src.items)
    decreases src, 0, 0, 2
  {
    var slots, byId;
    slots, byId, at := IdentifyItems(dst.items, src, keep);
    items := Resolved(keep, slots, byId, dst.items, src, at);
    IdentifiedFacts(keep, items, dst.items, src, at);
  }

  /** The loop over the source's items. */
  method IdentifyItems(dst: seq<Node>, src: Node, keep: bool) returns (slots: seq<Slot>, byId: map<string, Node>, ghost at: seq<int>)
    requires src.Sequence? && ById(dst, src.items)
    ensures |slots| == |src.items| && Slots(keep, slots, dst, src, at) && Led(keep, byId, dst, src, |src.items|)
    decreases src, 0, 0, 1
  {
    var anonymous;
    ghost var pos;
    byId, anonymous, pos := SplitById(dst);
    LedAtFirst(keep, dst, byId, anonymous, pos, src);
    var ai := 0;
    slots, at := [], [];
    for n := 0 to |src.items|
      invariant |slots| == n && Slots(keep, slots, dst, src, at) && Led(keep, byId, dst, src, n)
      invariant TakenFirst(dst, pos, ai, at)
    {
      slots, byId, ai, at := IdentifyItem(dst, src, n, keep, slots, byId, anonymous, ai, pos, at);
    }
  }

  lemma IdentifiedFacts(keep: bool, items: seq<Node>, d: seq<Node>, s: Node, at: seq<int>)
    requires s.Sequence? && DressedItems(keep, items, d, s, at)
    ensures !keep && BelowOk(keep, s.items) ==>
              forall j :: 0 <= j < |s.items| ==> ContentOf(items[j]) == ContentOf(s.items[Decides(s.items, d, j)])
    ensures keep && IdsOk(!keep, s) ==> ItemsMerge(keep, Contents(items), Contents(d), s.items)
  {
    if !keep && BelowOk(keep, s.items) { ItemsDecided(items, d, s, at); }
    if keep && IdsOk(!keep, s) {
      forall j | 0 <= j < |s.items| ensures ItemMerges(keep, ContentOf(items[j]), Contents(d), ContentOf(s.items[j])) {
        ItemMergesToo(keep, items, d, s, at, j);
      }
    }
  }

  /** One source item: to the destination's item with its id, or to the next one without, or as it is. */
  method IdentifyItem(dst: seq<Node>, src: Node, n: nat, keep: bool, slots: seq<Slot>, byId: map<string, Node>, anonymous: seq<Node>, ai: int,
                      ghost pos: seq<int>, ghost at: seq<int>)
    returns (slots': seq<Slot>, byId': map<string, Node>, ai': int, ghost at': seq<int>)
    requires src.Sequence? && n < |src.items| && |slots| == n && ById(dst, src.items)
    requires Slots(keep, slots, dst, src, at) && Led(keep, byId, dst, src, n) && TakenFirst(dst, pos, ai, at)
    requires |anonymous| == |pos| && forall k :: 0 <= k < |pos| ==> 0 <= pos[k] < |dst| && anonymous[k] == dst[pos[k]]
    ensures |slots'| == n + 1 && Slots(keep, slots', dst, src, at') && Led(keep, byId', dst, src, n + 1) && TakenFirst(dst, pos, ai', at')
    decreases src, 0, 0, 0
  {
    var sn := src.items[n];
    var id := IdOf(sn);
    if id != "" && id in byId {
      var v := ApplyYAML(byId[id], sn, keep);
      ghost var i := LastOf(dst, id);
      LedOn(keep, byId, dst, src, n, v);
      SlotsMore(keep, slots, dst, src, at, Old(id), i);
      SharedTaken(dst, pos, ai, at, i);
      return slots + [Old(id)], byId[id := v], ai, at + [i];
    }
    NextAnonymous(dst, sn, pos, ai, at);
    LedOn(keep, byId, dst, src, n, sn);
    if ai < |anonymous| {
      var v := ApplyYAML(anonymous[ai], sn, keep);
      SlotsMore(keep, slots, dst, src, at, New(v), pos[ai]);
      return slots + [New(v)], byId, ai + 1, at + [pos[ai]];
    }
    SlotsMore(keep, slots, dst, src, at, New(sn), -1);
    return slots + [New(sn)], byId, ai, at + [-1];
  }

  lemma LastOf(d: seq<Node>, id: string) returns (i: int)
    requires HasId(d, id)
    ensures IsLastWithId(d, id, i)
  {
    var k :| 0 <= k < |d| && IdOf(d[k]) == id;
    i := LastWith(d, |d|, id);
    LastHasId(d, |d|, k);
    NoneAfterLast(d, |d|, id);
  }

  lemma {:induction false} NoneAfterLast(items: seq<Node>, n: nat, id: string)
    requires n <= |items|
    ensures forall k :: LastWith(items, n, id) < k < n ==> IdOf(items[k]) != id
    decreases n
  {
    if n > 0 && IdOf(items[n - 1]) != id { NoneAfterLast(items, n - 1, id); }
  }

  /** What a slot stands for at the end. */
  lemma ResolvedSlot(keep: bool, slots: seq<Slot>, byId: map<string, Node>, d: seq<Node>, s: Node, at: seq<int>, j: nat)
    requires s.Sequence? && |slots| == |s.items| && Slots(keep, slots, d, s, at) && Led(keep, byId, d, s, |s.items|) && ById(d, s.items)
    requires j < |slots|
    ensures slots[j].Old? ==> slots[j].id in byId && DressedItem(keep, byId[slots[j].id], d, s, at[j], j)
    ensures slots[j].New? ==> DressedItem(keep, slots[j].n, d, s, at[j], j)
  {
    assert SlotOk(keep, slots[j], d, s, at[j], j);
  }

  method Resolved(keep: bool, slots: seq<Slot>, byId: map<string, Node>, ghost d: seq<Node>, ghost s: Node, ghost at: seq<int>) returns (items: seq<Node>)
    requires s.Sequence? && |slots| == |s.items| && Slots(keep, slots, d, s, at) && Led(keep, byId, d, s, |s.items|) && ById(d, s.items)
    ensures DressedItems(keep, items, d, s, at)
  {
    items := [];
    for j := 0 to |slots|
      invariant ResolvedUpTo(keep, items, d, s, at, j)
    {
      ResolvedSlot(keep, slots, byId, d, s, at, j);
      var n := match slots[j] case Old(id) => byId[id] case New(n) => n;
      ResolvedMore(keep, items, d, s, at, j, n);
      items := items + [n];
    }
  }

  ghost predicate ResolvedUpTo(keep: bool, items: seq<Node>, d: seq<Node>, s: Node, at: seq<int>, n: nat) {
    && s.Sequence? && |items| == n <= |s.items| && |at| == |s.items|
    && forall k :: 0 <= k < n ==> DressedItem(keep, items[k], d, s, at[k], k)
  }

  lemma ResolvedMore(keep: bool, items: seq<Node>, d: seq<Node>, s: Node, at: seq<int>, n: nat, v: Node)
    requires ResolvedUpTo(keep, items, d, s, at, n) && n < |s.items| && DressedItem(keep, v, d, s, at[n], n)
    ensures ResolvedUpTo(keep, items + [v], d, s, at, n + 1)
  {
  }
}
