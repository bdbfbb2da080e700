/** Adding the template's keys that a configuration does not have. */
module YamlFill {
  import opened Base
  import opened YamlContent
  import opened YamlLook
  import opened YamlMerge

  /** The template supplies what mappings lack, at every depth, and changes nothing else. */
  ghost function Fill(d: Content, t: Content): Content
    decreases t
  {
    if d.Dict? && t.Dict? then
      Dict(map key | key in d.entries.Keys + t.entries.Keys ::
             if key !in d.entries then t.entries[key]
             else if key !in t.entries then d.entries[key]
             else Fill(d.entries[key], t.entries[key]))
    else d
  }

  // ---- What filling does to paths ----

  ghost function Lookup(c: Content, path: seq<string>): Option<Content> {
    if path == [] then Some(c)
    else if c.Dict? && path[0] in c.entries then Lookup(c.entries[path[0]], path[1..])
    else None
  }

  /** The path leaves the tree at a mapping that does not have the key. */
  ghost predicate Missing(c: Content, path: seq<string>) {
    c.Dict? && path != [] && (path[0] !in c.entries || Missing(c.entries[path[0]], path[1..]))
  }

  /**
    A path that is there stays there and shows what it showed, filled in turn; a path
    missing from a mapping shows the template; any other path is still not there.
  */
  lemma {:induction false} FillPaths(d: Content, t: Content, path: seq<string>)
    ensures Lookup(d, path).Some? && Lookup(t, path).Some? ==>
              Lookup(Fill(d, t), path) == Some(Fill(Lookup(d, path).value, Lookup(t, path).value))
    ensures Lookup(d, path).Some? && Lookup(t, path).None? ==> Lookup(Fill(d, t), path) == Lookup(d, path)
    ensures Lookup(d, path).None? && Missing(d, path) ==> Lookup(Fill(d, t), path) == Lookup(t, path)
    ensures Lookup(d, path).None? && !Missing(d, path) ==> Lookup(Fill(d, t), path).None?
    decreases |path|
  {
    if path != [] && d.Dict? && path[0] in d.entries && t.Dict? && path[0] in t.entries {
      FillPaths(d.entries[path[0]], t.entries[path[0]], path[1..]);
    }
  }

  /** In particular no scalar and no list that is there changes. */
  lemma {:induction false} FillKeepsLeaves(d: Content, t: Content, path: seq<string>)
    requires Lookup(d, path).Some? && !Lookup(d, path).value.Dict?
    ensures Lookup(Fill(d, t), path) == Lookup(d, path)
  {
    FillPaths(d, t, path);
  }

  /** Filling again changes nothing. */
  lemma {:induction false} FillTwice(d: Content, t: Content)
    ensures Fill(Fill(d, t), t) == Fill(d, t)
    decreases t
  {
    if d.Dict? && t.Dict? {
      forall key | key in t.entries && key in d.entries
        ensures Fill(Fill(d.entries[key], t.entries[key]), t.entries[key]) == Fill(d.entries[key], t.entries[key])
      {
        FillTwice(d.entries[key], t.entries[key]);
      }
      forall key | key in t.entries ensures Fill(t.entries[key], t.entries[key]) == t.entries[key] {
        FillSelf(t.entries[key]);
      }
    }
  }

  lemma {:induction false} FillSelf(t: Content)
    ensures Fill(t, t) == t
    decreases t
  {
    if t.Dict? {
      forall key | key in t.entries ensures Fill(t.entries[key], t.entries[key]) == t.entries[key] {
        FillSelf(t.entries[key]);
      }
    }
  }

  // ---- Merging with `keep` is filling ----

  /** No way of merging `d` into `s` shows more than `s`. */
  ghost predicate AddsNothing(d: Content, s: Content)
    decreases s
  {
    if d.Dict? && s.Dict? then
      d.entries.Keys <= s.entries.Keys && forall key :: key in d.entries ==> AddsNothing(d.entries[key], s.entries[key])
    else if d.List? && s.List? then
      forall i, j :: 0 <= i < |s.items| && 0 <= j < |d.items| ==> AddsNothing(d.items[j], s.items[i])
    else true
  }

  /** Where two lists stand at one path of both trees, no item of the one adds to an item of the other. */
  ghost predicate ListsAddNothing(d: Content, s: Content)
    decreases s
  {
    if d.Dict? && s.Dict? then
      forall key :: key in d.entries && key in s.entries ==> ListsAddNothing(d.entries[key], s.entries[key])
    else if d.List? && s.List? then AddsNothing(d, s)
    else true
  }

  /** Every list outside of lists holds scalars only, as in the default configuration. */
  ghost predicate FlatLists(d: Content)
    decreases d
  {
    match d
    case Leaf(_, _) => true
    case Dict(entries) => forall key :: key in entries ==> FlatLists(entries[key])
    case List(items) => forall j :: 0 <= j < |items| ==> items[j].Leaf?
  }

  lemma {:induction false} FlatAddsNothing(d: Content, s: Content)
    requires FlatLists(d)
    ensures ListsAddNothing(d, s)
    decreases s
  {
    if d.Dict? && s.Dict? {
      forall key | key in d.entries && key in s.entries ensures ListsAddNothing(d.entries[key], s.entries[key]) {
        FlatAddsNothing(d.entries[key], s.entries[key]);
      }
    }
  }

  lemma {:induction false} NothingAdded(c: Content, d: Content, s: Content)
    requires Merges(true, c, d, s) && AddsNothing(d, s)
    ensures c == s
    decreases s
  {
    if d.Dict? && s.Dict? {
      forall key | key in s.entries ensures c.entries[key] == s.entries[key] {
        if key in d.entries { NothingAdded(c.entries[key], d.entries[key], s.entries[key]); }
      }
      assert c.entries == s.entries;
    } else if d.List? && s.List? {
      forall i | 0 <= i < |s.items| ensures c.items[i] == s.items[i] {
        if j :| 0 <= j < |d.items| && Merges(true, c.items[i], d.items[j], s.items[i]) {
          NothingAdded(c.items[i], d.items[j], s.items[i]);
        }
      }
      assert c.items == s.items;
    }
  }

  /** A merge that keeps the destination's keys is the source filled from the destination, unless list items add something. */
  lemma {:induction false} MergeIsFill(c: Content, d: Content, s: Content)
    requires Merges(true, c, d, s) && ListsAddNothing(d, s)
    ensures c == Fill(s, d)
    decreases s
  {
    if d.Dict? && s.Dict? {
      forall key | key in d.entries && key in s.entries ensures c.entries[key] == Fill(s.entries[key], d.entries[key]) {
        MergeIsFill(c.entries[key], d.entries[key], s.entries[key]);
      }
      assert c.entries == Fill(s, d).entries;
    } else if d.List? && s.List? {
      NothingAdded(c, d, s);
    }
  }

  /** Filling is one way of merging: it takes the source's lists as they are. */
  lemma {:induction false} FillMerges(d: Content, s: Content)
    ensures Merges(true, Fill(s, d), d, s)
    decreases s
  {
    if d.Dict? && s.Dict? {
      forall key | key in s.entries && key in d.entries
        ensures Merges(true, Fill(s.entries[key], d.entries[key]), d.entries[key], s.entries[key])
      {
        FillMerges(d.entries[key], s.entries[key]);
      }
    }
  }

  lemma MergeAtKey(d: Content, s: Content, key: string, c: Content)
    requires d.Dict? && s.Dict? && key in d.entries && key in s.entries && Merges(true, c, d.entries[key], s.entries[key])
    ensures Merges(true, Dict(Fill(s, d).entries[key := c]), d, s)
  {
    FillMerges(d, s);
  }

  lemma MergeAtItem(d: Content, s: Content, i: nat, j: nat, c: Content)
    requires d.List? && s.List? && i < |s.items| && j < |d.items| && Merges(true, c, d.items[j], s.items[i])
    ensures Merges(true, List(s.items[i := c]), d, s)
  {
  }

  lemma {:induction false} SomethingAdded(d: Content, s: Content) returns (c: Content)
    requires !AddsNothing(d, s)
    ensures Merges(true, c, d, s) && c != s
    decreases s
  {
    if d.Dict? {
      if key :| key in d.entries && key in s.entries && !AddsNothing(d.entries[key], s.entries[key]) {
        var v := SomethingAdded(d.entries[key], s.entries[key]);
        MergeAtKey(d, s, key, v);
        c := Dict(Fill(s, d).entries[key := v]);
      } else {
        FillMerges(d, s);
        c := Fill(s, d);
      }
    } else {
      var i, j :| 0 <= i < |s.items| && 0 <= j < |d.items| && !AddsNothing(d.items[j], s.items[i]);
      var v := SomethingAdded(d.items[j], s.items[i]);
      MergeAtItem(d, s, i, j, v);
      c := List(s.items[i := v]);
      assert c.items[i] != s.items[i];
    }
  }

  lemma {:induction false} OtherMerge(d: Content, s: Content) returns (c: Content)
    requires !ListsAddNothing(d, s)
    ensures Merges(true, c, d, s) && c != Fill(s, d)
    decreases s
  {
    if d.List? {
      c := SomethingAdded(d, s);
    } else {
      var key :| key in d.entries && key in s.entries && !ListsAddNothing(d.entries[key], s.entries[key]);
      var v := OtherMerge(d.entries[key], s.entries[key]);
      MergeAtKey(d, s, key, v);
      c := Dict(Fill(s, d).entries[key := v]);
      assert c.entries[key] != Fill(s, d).entries[key];
    }
  }

  /** However the items of lists are paired, the merge is the fill: if and only if no item adds to another. */
  lemma MergeIsFillIff(d: Content, s: Content)
    ensures (forall c :: Merges(true, c, d, s) ==> c == Fill(s, d)) <==> ListsAddNothing(d, s)
  {
    if ListsAddNothing(d, s) {
      forall c | Merges(true, c, d, s) ensures c == Fill(s, d) { MergeIsFill(c, d, s); }
    } else {
      var c := OtherMerge(d, s);
      assert !(Merges(true, c, d, s) ==> c == Fill(s, d));
    }
  }

  // ---- The loop ----

  /** The entries of a mapping filled from entries of a template. */
  ghost function FillEntries(d: map<string, Content>, t: map<string, Content>): map<string, Content> {
    map key | key in d.Keys + t.Keys ::
      if key !in d then t[key] else if key !in t then d[key] else Fill(d[key], t[key])
  }

  lemma FillEntriesStep(d: map<string, Content>, t: map<string, Content>, key: string, c: Content)
    requires key !in t
    ensures FillEntries(d, t[key := c]) == FillEntries(d, t)[key := if key in d then Fill(d[key], c) else c]
    ensures key in d ==> key in FillEntries(d, t) && FillEntries(d, t)[key] == d[key]
  {
  }

  predicate UniqueKeys(pairs: seq<Pair>) {
    forall i, j :: 0 <= i < j < |pairs| ==> pairs[i].key != pairs[j].key
  }

  ghost predicate KeysUnique(n: Node)
    decreases n
  {
    match n
    case Scalar(_, _, _) => true
    case Mapping(_, _, pairs) => UniqueKeys(pairs) && forall i :: 0 <= i < |pairs| ==> KeysUnique(pairs[i].val)
    case Sequence(_, _, items) => forall i :: 0 <= i < |items| ==> KeysUnique(items[i])
  }

  lemma {:induction false} SetLast(pairs: seq<Pair>, key: string, at: nat, v: Node)
    requires LastAt(pairs, key, at)
    ensures Entries(pairs[at := Pair(key, v)]) == Entries(pairs)[key := ContentOf(v)]
    decreases |pairs|
  {
    var init, p := pairs[..|pairs| - 1], pairs[|pairs| - 1];
    InitLast(pairs);
    if at == |init| {
      SetEnd(init, p, v);
    } else {
      UpdateSnoc(init, p, at, Pair(key, v));
      SetLast(init, key, at, v);
      SetBefore(init, p, key, at, v);
    }
  }

  lemma SetEnd(init: seq<Pair>, p: Pair, v: Node)
    ensures Entries((init + [p])[|init| := Pair(p.key, v)]) == Entries(init + [p])[p.key := ContentOf(v)]
  {
    UpdateEnd(init, p, Pair(p.key, v));
    EntriesSnoc(init, p);
    EntriesSnoc(init, Pair(p.key, v));
    SetTwice(Entries(init), p.key, ContentOf(p.val), ContentOf(v));
  }

  lemma SetBefore(init: seq<Pair>, p: Pair, key: string, at: nat, v: Node)
    requires at < |init| && p.key != key && Entries(init[at := Pair(key, v)]) == Entries(init)[key := ContentOf(v)]
    ensures Entries(init[at := Pair(key, v)] + [p]) == Entries(init + [p])[key := ContentOf(v)]
  {
    EntriesSnoc(init, p);
    EntriesSnoc(init[at := Pair(key, v)], p);
    SetSwap(Entries(init), key, ContentOf(v), p.key, ContentOf(p.val));
  }

  /** `have` leads to the pairs that count, for the destination's keys. */
  ghost predicate Indexed(content: seq<Pair>, have: map<string, int>) {
    forall key :: key in have ==> LastAt(content, key, have[key])
  }

  lemma IndexedAppend(content: seq<Pair>, have: map<string, int>, p: Pair)
    requires Indexed(content, have)
    ensures Indexed(content + [p], have[p.key := |content|])
    ensures p.key !in have ==> Indexed(content + [p], have)
  {
  }

  method IndexPairs(pairs: seq<Pair>) returns (have: map<string, int>)
    ensures have.Keys == Keys(pairs) && Indexed(pairs, have)
  {
    have := map[];
    for i := 0 to |pairs|
      invariant have.Keys == Keys(pairs[..i]) && Indexed(pairs[..i], have)
    {
      TakeSnoc(pairs, i);
      KeysSnoc(pairs[..i], pairs[i]);
      IndexedAppend(pairs[..i], have, pairs[i]);
      have := have[pairs[i].key := i];
    }
    TakeAll(pairs);
  }

  /** The state after `i` pairs of the template. */
  ghost predicate Filling(dst: seq<Pair>, tmpl: seq<Pair>, i: nat, content: seq<Pair>)
    requires i <= |tmpl|
  {
    Entries(content) == FillEntries(Entries(dst), Entries(tmpl[..i]))
  }

  lemma NotSeen(tmpl: seq<Pair>, i: nat)
    requires UniqueKeys(tmpl) && i < |tmpl|
    ensures tmpl[i].key !in Keys(tmpl[..i])
  {
    if tmpl[i].key in Keys(tmpl[..i]) { KeysAt(tmpl[..i], tmpl[i].key); }
  }

  lemma FillingStep(dst: seq<Pair>, tmpl: seq<Pair>, i: nat, content: seq<Pair>)
    requires i < |tmpl| && UniqueKeys(tmpl) && Filling(dst, tmpl, i, content)
    ensures var d, key, c := Entries(dst), tmpl[i].key, ContentOf(tmpl[i].val);
            && Entries(tmpl[..i + 1]) == Entries(tmpl[..i])[key := c]
            && FillEntries(d, Entries(tmpl[..i + 1])) == Entries(content)[key := if key in d then Fill(d[key], c) else c]
            && (key in d ==> key in Entries(content) && Entries(content)[key] == d[key])
  {
    NotSeen(tmpl, i);
    EntriesKeys(tmpl[..i]);
    TakeSnoc(tmpl, i);
    EntriesSnoc(tmpl[..i], tmpl[i]);
    FillEntriesStep(Entries(dst), Entries(tmpl[..i]), tmpl[i].key, ContentOf(tmpl[i].val));
  }

  lemma {:induction false} FillingAppend(dst: seq<Pair>, tmpl: seq<Pair>, i: nat, content: seq<Pair>)
    requires i < |tmpl| && UniqueKeys(tmpl) && Filling(dst, tmpl, i, content) && tmpl[i].key !in Keys(dst)
    ensures Filling(dst, tmpl, i + 1, content + [tmpl[i]])
  {
    FillingStep(dst, tmpl, i, content);
    EntriesKeys(dst);
    EntriesSnoc(content, tmpl[i]);
  }

  /** What an existing value becomes: filled if both are mappings, else as it is. */
  lemma {:induction false} FillingSet(dst: seq<Pair>, tmpl: seq<Pair>, i: nat, content: seq<Pair>, at: int, v: Node)
    requires i < |tmpl| && UniqueKeys(tmpl) && Filling(dst, tmpl, i, content) && tmpl[i].key in Keys(dst)
    requires LastAt(content, tmpl[i].key, at) && ContentOf(v) == Fill(ContentOf(content[at].val), ContentOf(tmpl[i].val))
    ensures Filling(dst, tmpl, i + 1, content[at := Pair(tmpl[i].key, v)])
  {
    FillingStep(dst, tmpl, i, content);
    EntriesKeys(dst);
    LastIsValue(content, tmpl[i].key, at);
    SetLast(content, tmpl[i].key, at, v);
  }

  lemma FillNodes(dst: Node, tmpl: Node, r: Node)
    requires dst.Mapping? && tmpl.Mapping? && r.Mapping? && Filling(dst.pairs, tmpl.pairs, |tmpl.pairs|, r.pairs)
    ensures ContentOf(r) == Fill(ContentOf(dst), ContentOf(tmpl))
  {
    TakeAll(tmpl.pairs);
    assert Fill(Dict(Entries(dst.pairs)), Dict(Entries(tmpl.pairs))).entries == FillEntries(Entries(dst.pairs), Entries(tmpl.pairs));
  }

  lemma NothingToFill(d: Node, t: Node)
    requires !(d.Mapping? && t.Mapping?)
    ensures Fill(ContentOf(d), ContentOf(t)) == ContentOf(d)
  {
  }

  // ---- What a filled tree looks like ----

  /**
    `r` is `d` with what it lacks: the pairs of `d` in their order and with their
    comments, mappings filled in turn, then the missing pairs in the template's order.
  */
  ghost predicate Filled(r: Node, d: Node, t: Node)
    decreases t, 2
  {
    if d.Mapping? && t.Mapping? then
      && r.Mapping? && r.note == d.note && r.tag == d.tag
      && exists more :: FilledPairs(r.pairs, d.pairs, t, |t.pairs|, more)
    else r == d
  }

  /** The pairs after the first `n` of the template. */
  ghost predicate FilledPairs(r: seq<Pair>, d: seq<Pair>, t: Node, n: nat, more: seq<int>)
    requires t.Mapping? && n <= |t.pairs|
    decreases t, 1
  {
    && ListsPositions(more, NewAt(t.pairs, Keys(d), n)) && |r| == |d| + |more|
    && (forall j :: 0 <= j < |d| ==> FilledPair(r[j], d, j, t, n))
    && (forall k :: 0 <= k < |more| ==> 0 <= more[k] < n && r[|d| + k] == t.pairs[more[k]])
  }

  /** The pair that counts for its key is filled from the template's pair with that key; any other is as it was. */
  ghost predicate FilledPair(r: Pair, d: seq<Pair>, j: nat, t: Node, n: nat)
    requires t.Mapping? && n <= |t.pairs| && j < |d|
    decreases t, 0
  {
    && r.key == d[j].key
    && (LastAt(d, d[j].key, j) ==> forall m :: 0 <= m < n && t.pairs[m].key == d[j].key ==> Filled(r.val, d[j].val, t.pairs[m].val))
    && (!LastAt(d, d[j].key, j) || (forall m :: 0 <= m < n ==> t.pairs[m].key != d[j].key) ==> r.val == d[j].val)
  }

  lemma FilledAppend(r: seq<Pair>, d: seq<Pair>, t: Node, n: nat, more: seq<int>)
    requires t.Mapping? && n < |t.pairs| && FilledPairs(r, d, t, n, more) && t.pairs[n].key !in Keys(d)
    ensures FilledPairs(r + [t.pairs[n]], d, t, n + 1, more + [n])
  {
    PositionsMore(more, NewAt(t.pairs, Keys(d), n), n);
    assert NewAt(t.pairs, Keys(d), n + 1) == NewAt(t.pairs, Keys(d), n) + {n};
    forall j | 0 <= j < |d| ensures FilledPair(r[j], d, j, t, n + 1) {
      assert FilledPair(r[j], d, j, t, n);
      KeyIn(d, j);
    }
  }

  lemma FilledSet(r: seq<Pair>, d: seq<Pair>, t: Node, n: nat, more: seq<int>, at: nat, v: Node)
    requires t.Mapping? && n < |t.pairs| && UniqueKeys(t.pairs) && FilledPairs(r, d, t, n, more)
    requires LastAt(d, t.pairs[n].key, at) && Filled(v, r[at].val, t.pairs[n].val)
    ensures FilledPairs(r[at := Pair(t.pairs[n].key, v)], d, t, n + 1, more)
  {
    var key := t.pairs[n].key;
    KeyIn(d, at);
    assert NewAt(t.pairs, Keys(d), n + 1) == NewAt(t.pairs, Keys(d), n);
    assert FilledPair(r[at], d, at, t, n);
    var r' := r[at := Pair(key, v)];
    forall j | 0 <= j < |d| ensures FilledPair(r'[j], d, j, t, n + 1) {
      assert FilledPair(r[j], d, j, t, n);
    }
  }

  /** One pair of the template. */
  method FillPair(content: seq<Pair>, have: map<string, int>, p: Pair, ghost dst: seq<Pair>, ghost tmpl: Node, ghost i: nat, ghost ok: bool, ghost more: seq<int>)
    returns (content': seq<Pair>, ghost more': seq<int>)
    requires Indexed(content, have) && Indexed(dst, have) && have.Keys == Keys(dst)
    requires tmpl.Mapping? && i < |tmpl.pairs| && tmpl.pairs[i] == p
    requires ok ==> UniqueKeys(tmpl.pairs) && KeysUnique(p.val) && Filling(dst, tmpl.pairs, i, content) && FilledPairs(content, dst, tmpl, i, more)
    ensures Indexed(content', have)
    ensures ok ==> Filling(dst, tmpl.pairs, i + 1, content') && FilledPairs(content', dst, tmpl, i + 1, more')
    decreases p.val, 1
  {
    if p.key !in have {
      IndexedAppend(content, have, p);
      if ok {
        FillingAppend(dst, tmpl.pairs, i, content);
        FilledAppend(content, dst, tmpl, i, more);
      }
      return content + [p], more + [i];
    }
    var at := have[p.key];
    var v := content[at].val;
    if v.Mapping? && p.val.Mapping? {
      v := FillMissing(v, p.val);
    } else {
      NothingToFill(v, p.val);
    }
    if ok {
      FillingSet(dst, tmpl.pairs, i, content, at, v);
      FilledSet(content, dst, tmpl, i, more, at, v);
    }
    content', more' := content[at := Pair(p.key, v)], more;
  }

  method FillMissing(dst: Node, tmpl: Node) returns (r: Node)
    ensures r.note == dst.note
    ensures KeysUnique(tmpl) ==> Filled(r, dst, tmpl) && ContentOf(r) == Fill(ContentOf(dst), ContentOf(tmpl))
    decreases tmpl, 0
  {
    if !(tmpl.Mapping? && dst.Mapping?) {
      NothingToFill(dst, tmpl);
      return dst;
    }
    ghost var ok := KeysUnique(tmpl);
    var have := IndexPairs(dst.pairs);
    var content := dst.pairs;
    ghost var more: seq<int> := [];
    for i := 0 to |tmpl.pairs|
      invariant Indexed(content, have)
      invariant ok ==> Filling(dst.pairs, tmpl.pairs, i, content) && FilledPairs(content, dst.pairs, tmpl, i, more)
    {
      content, more := FillPair(content, have, tmpl.pairs[i], dst.pairs, tmpl, i, ok, more);
    }
    r := Mapping(dst.note, dst.tag, content);
    if ok { FillNodes(dst, tmpl, r); }
  }

  /** Every subtree along a path keeps its comments, and a scalar or sequence is untouched. */
  lemma {:induction false} FilledAlongPaths(r: Node, d: Node, t: Node, path: seq<string>)
    requires Filled(r, d, t) && KeysUnique(t) && NodeAt(d, path).Some?
    ensures NodeAt(r, path).Some? && NodeAt(r, path).value.note == NodeAt(d, path).value.note
    ensures !NodeAt(d, path).value.Mapping? ==> NodeAt(r, path) == NodeAt(d, path)
    decreases |path|
  {
    if path != [] && d.Mapping? && t.Mapping? {
      var more :| FilledPairs(r.pairs, d.pairs, t, |t.pairs|, more);
      var at := LastExists(d.pairs, path[0]);
      FilledLast(r.pairs, d.pairs, t, more, path[0], at);
      LastIsValue(r.pairs, path[0], at);
      assert FilledPair(r.pairs[at], d.pairs, at, t, |t.pairs|);
      if m :| 0 <= m < |t.pairs| && t.pairs[m].key == path[0] {
        FilledAlongPaths(r.pairs[at].val, d.pairs[at].val, t.pairs[m].val, path[1..]);
      }
    }
  }

  lemma FilledLast(r: seq<Pair>, d: seq<Pair>, t: Node, more: seq<int>, key: string, at: int)
    requires t.Mapping? && FilledPairs(r, d, t, |t.pairs|, more) && LastAt(d, key, at)
    ensures LastAt(r, key, at)
  {
    forall j | at <= j < |r| ensures r[j].key == key <==> j == at {
      if j < |d| {
        assert FilledPair(r[j], d, j, t, |t.pairs|);
      } else {
        assert r[|d| + (j - |d|)] == t.pairs[more[j - |d|]] && more[j - |d|] in more;
        KeyIn(d, at);
      }
    }
  }

  // ---- Documents ----

  /** A file is empty or holds one tree. */
  datatype Document = Document(root: Option<Node>)

  method ApplyDocument(dst: Document, src: Node, keep: bool) returns (r: Document)
    ensures r.root.Some?
    ensures dst.root.None? ==> r.root.value == src
    ensures dst.root.Some? ==> Dressed(keep, r.root.value, dst.root.value, src)
    ensures dst.root.Some? && IdsOk(!keep, src) ==> Merges(keep, ContentOf(r.root.value), ContentOf(dst.root.value), ContentOf(src))
  {
    if dst.root.None? {
      return Document(Some(src));
    }
    var n := ApplyYAML(dst.root.value, src, keep);
    r := Document(Some(n));
  }

  method FillDocument(dst: Document, tmpl: Node) returns (r: Document)
    ensures r.root.Some?
    ensures dst.root.None? ==> r.root.value == tmpl
    ensures dst.root.Some? && KeysUnique(tmpl) ==>
              Filled(r.root.value, dst.root.value, tmpl) && ContentOf(r.root.value) == Fill(ContentOf(dst.root.value), ContentOf(tmpl))
  {
    if dst.root.None? {
      return Document(Some(tmpl));
    }
    var n := FillMissing(dst.root.value, tmpl);
    r := Document(Some(n));
  }

  /** Saving over an existing file: the file with the new configuration's values, and the template where it says nothing. */
  method SaveOver(file: Document, config: Node, tmpl: Node) returns (r: Document)
    ensures r.root.Some?
    ensures file.root.Some? && KeysUnique(tmpl) ==>
              exists m :: Dressed(false, m, file.root.value, config) && Filled(r.root.value, m, tmpl)
    ensures IdsAgree(config) && KeysUnique(tmpl) ==> ContentOf(r.root.value) == Fill(ContentOf(config), ContentOf(tmpl))
  {
    var merged := ApplyDocument(file, config, false);
    r := FillDocument(merged, tmpl);
  }

  /** Along every path that the file and the new configuration both have, the file's comments are still there. */
  lemma SavedComments(r: Node, m: Node, file: Node, config: Node, tmpl: Node, path: seq<string>)
    requires Dressed(false, m, file, config) && Filled(r, m, tmpl) && KeysUnique(tmpl)
    requires NodeAt(file, path).Some? && NodeAt(config, path).Some?
    ensures NodeAt(r, path).Some? && NodeAt(r, path).value.note == NodeAt(file, path).value.note
  {
    LookAlongPaths(false, m, file, config, path);
    FilledAlongPaths(r, m, tmpl, path);
  }

  /** The first write merges the configuration into the template, and shows what any later write would show. */
  method FirstWrite(tmpl: Node, config: Node) returns (r: Node)
    ensures Dressed(true, r, tmpl, config)
    ensures IdsUnique(config) ==> Merges(true, ContentOf(r), ContentOf(tmpl), ContentOf(config))
    ensures IdsUnique(config) && ListsAddNothing(ContentOf(tmpl), ContentOf(config)) ==>
              ContentOf(r) == Fill(ContentOf(config), ContentOf(tmpl))
    ensures IdsUnique(config) && FlatLists(ContentOf(tmpl)) ==> ContentOf(r) == Fill(ContentOf(config), ContentOf(tmpl))
  {
    r := ApplyYAML(tmpl, config, true);
    if FlatLists(ContentOf(tmpl)) {
      FlatAddsNothing(ContentOf(tmpl), ContentOf(config));
    }
    if IdsUnique(config) && ListsAddNothing(ContentOf(tmpl), ContentOf(config)) {
      MergeIsFill(ContentOf(r), ContentOf(tmpl), ContentOf(config));
    }
  }

  /** The item `{a: 1}` and the item `{}`. */
  const FULL_ITEM := Mapping("", MAP_TAG, [Pair("a", Scalar("", "!!int", "1"))])
  const EMPTY_ITEM := Mapping("", MAP_TAG, [])

  lemma ItemsHaveNoIds()
    ensures IdOf(FULL_ITEM) == "" && IdOf(EMPTY_ITEM) == "" && IdsUnique(EMPTY_ITEM)
    ensures "a" in ContentOf(FULL_ITEM).entries && ContentOf(EMPTY_ITEM).entries == map[]
  {
    assert FirstText(FULL_ITEM.pairs, "id") == FirstText(FULL_ITEM.pairs[1..], "id") == "";
    KeyIn(FULL_ITEM.pairs, 0);
  }

  lemma ItemsShow(c: Content)
    requires Merges(true, c, ContentOf(FULL_ITEM), ContentOf(EMPTY_ITEM))
    ensures c != ContentOf(EMPTY_ITEM)
  {
    ItemsHaveNoIds();
    assert "a" in c.entries;
  }

  /** A template with a mapping in a list: `[{a: 1}]` adds its key to the item of `[{}]`, and filling does not. */
  method ListItemsKeepKeys() returns (tmpl: Node, config: Node, r: Node)
    ensures IdsUnique(config) && ContentOf(r) != Fill(ContentOf(config), ContentOf(tmpl))
  {
    tmpl, config := Sequence("", SEQ_TAG, [FULL_ITEM]), Sequence("", SEQ_TAG, [EMPTY_ITEM]);
    ItemsHaveNoIds();
    assert IdsUnique(config) && !HasIds(config.items) && !HasIds(tmpl.items);
    r := ApplySequence(tmpl, config, true);
    ghost var at :| DressedItems(true, r.items, tmpl.items, config, at);
    assert Partner(tmpl.items, config.items, config.items[0], at[..0], at[0]);
    assert tmpl.items[0] == FULL_ITEM && config.items[0] == EMPTY_ITEM && Fits(false, tmpl.items[0], config.items[0]);
    assert at[0] == 0 && DressedItem(true, r.items[0], tmpl.items, config, at[0], 0);
    DressedMerges(true, r.items[0], FULL_ITEM, EMPTY_ITEM);
    ItemsShow(ContentOf(r.items[0]));
    assert ContentOf(r).items[0] != ContentOf(config).items[0];
  }
}
