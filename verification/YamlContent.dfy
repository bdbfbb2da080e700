/**
  YAML trees and what they mean. A mapping means a finite map: the order of its keys
  is presentation (section 3.2.1 of YAML 1.2.2), and so are comments. Styles are not
  represented.
*/
module YamlContent {

  /** `note` stands for the comments. Keys are compared by their text. */
  datatype Node =
    | Scalar(note: string, tag: string, value: string)
    | Mapping(note: string, tag: string, pairs: seq<Pair>)
    | Sequence(note: string, tag: string, items: seq<Node>)

  datatype Pair = Pair(key: string, val: Node)

  /** Kinds, scalar tags and values; mappings without order. */
  datatype Content = Leaf(tag: string, value: string) | Dict(entries: map<string, Content>) | List(items: seq<Content>)

  function Keys(pairs: seq<Pair>): set<string> {
    if pairs == [] then {} else Keys(pairs[..|pairs| - 1]) + {pairs[|pairs| - 1].key}
  }

  /** The value of a key; the last pair counts. */
  function ValueOf(pairs: seq<Pair>, key: string): (val: Node)
    requires key in Keys(pairs)
    ensures exists i :: 0 <= i < |pairs| && pairs[i] == Pair(key, val)
  {
    if pairs[|pairs| - 1].key == key then pairs[|pairs| - 1].val else ValueOf(pairs[..|pairs| - 1], key)
  }

  ghost function ContentOf(n: Node): Content
    decreases n
  {
    match n
    case Scalar(_, tag, value) => Leaf(tag, value)
    case Mapping(_, _, pairs) => Dict(map key | key in Keys(pairs) :: ContentOf(ValueOf(pairs, key)))
    case Sequence(_, _, items) => List(seq(|items|, i requires 0 <= i < |items| => ContentOf(items[i])))
  }

  ghost function Entries(pairs: seq<Pair>): map<string, Content> {
    map key | key in Keys(pairs) :: ContentOf(ValueOf(pairs, key))
  }

  ghost function Contents(items: seq<Node>): (cs: seq<Content>)
    ensures |cs| == |items| && forall i :: 0 <= i < |items| ==> cs[i] == ContentOf(items[i])
  {
    seq(|items|, i requires 0 <= i < |items| => ContentOf(items[i]))
  }

  lemma EntriesKeys(pairs: seq<Pair>)
    ensures Entries(pairs).Keys == Keys(pairs)
  {
  }

  lemma KeysSnoc(pairs: seq<Pair>, p: Pair)
    ensures Keys(pairs + [p]) == Keys(pairs) + {p.key}
  {
    assert (pairs + [p])[..|pairs|] == pairs;
  }

  lemma EntriesSnoc(pairs: seq<Pair>, p: Pair)
    ensures Keys(pairs + [p]) == Keys(pairs) + {p.key}
    ensures Entries(pairs + [p]) == Entries(pairs)[p.key := ContentOf(p.val)]
  {
    assert (pairs + [p])[..|pairs|] == pairs;
  }

  lemma {:induction false} KeyIn(pairs: seq<Pair>, i: nat)
    requires i < |pairs|
    ensures pairs[i].key in Keys(pairs)
    decreases |pairs|
  {
    if i < |pairs| - 1 { KeyIn(pairs[..|pairs| - 1], i); }
  }

  lemma {:induction false} KeysAt(pairs: seq<Pair>, key: string)
    requires key in Keys(pairs)
    ensures exists i :: 0 <= i < |pairs| && pairs[i].key == key
    decreases |pairs|
  {
    var n := |pairs| - 1;
    if pairs[n].key != key {
      KeysAt(pairs[..n], key);
      var i :| 0 <= i < |pairs[..n]| && pairs[..n][i].key == key;
      assert pairs[i].key == key;
    }
  }

  /** The place of the pair that counts for a key. */
  ghost predicate LastAt(pairs: seq<Pair>, key: string, at: int) {
    && 0 <= at < |pairs| && pairs[at].key == key
    && forall j :: at < j < |pairs| ==> pairs[j].key != key
  }

  lemma {:induction false} LastIsValue(pairs: seq<Pair>, key: string, at: int)
    requires LastAt(pairs, key, at)
    ensures key in Keys(pairs) && ValueOf(pairs, key) == pairs[at].val
    decreases |pairs|
  {
    if at < |pairs| - 1 {
      LastIsValue(pairs[..|pairs| - 1], key, at);
    }
  }

  lemma {:induction false} LastExists(pairs: seq<Pair>, key: string) returns (at: int)
    requires key in Keys(pairs)
    ensures LastAt(pairs, key, at) && ValueOf(pairs, key) == pairs[at].val
    decreases |pairs|
  {
    if pairs[|pairs| - 1].key == key {
      at := |pairs| - 1;
    } else {
      at := LastExists(pairs[..|pairs| - 1], key);
    }
  }

  /** The lookup table of a mapping. */
  method Table(pairs: seq<Pair>) returns (m: map<string, Node>)
    ensures m.Keys == Keys(pairs) && forall key :: key in m ==> m[key] == ValueOf(pairs, key)
  {
    m := map[];
    for i := 0 to |pairs|
      invariant m.Keys == Keys(pairs[..i]) && forall key :: key in m ==> m[key] == ValueOf(pairs[..i], key)
    {
      assert pairs[..i + 1][..i] == pairs[..i];
      m := m[pairs[i].key := pairs[i].val];
    }
    assert pairs[..|pairs|] == pairs;
  }

  // ---- Ids of sequence items ----

  /** The text under the first key that matches; other kinds have no text. */
  function MappingString(n: Node, key: string): string {
    if n.Mapping? then FirstText(n.pairs, key) else ""
  }

  function Text(n: Node): string {
    if n.Scalar? then n.value else ""
  }

  function FirstText(pairs: seq<Pair>, key: string): string {
    if pairs == [] then "" else if pairs[0].key == key then Text(pairs[0].val) else FirstText(pairs[1..], key)
  }

  function IdOf(n: Node): string {
    MappingString(n, "id")
  }

  /** The id of an item: the text of the first value under "id", if the item is a mapping and that value a scalar. */
  lemma {:induction false} IdMeans(pairs: seq<Pair>, n: Node, i: nat)
    requires n.Mapping? ==> n.pairs == pairs
    ensures !n.Mapping? ==> IdOf(n) == ""
    ensures n.Mapping? && (forall k :: 0 <= k < |pairs| ==> pairs[k].key != "id") ==> IdOf(n) == ""
    ensures n.Mapping? && i < |pairs| && pairs[i].key == "id" && (forall k :: 0 <= k < i ==> pairs[k].key != "id") ==>
              IdOf(n) == if pairs[i].val.Scalar? then pairs[i].val.value else ""
    decreases |pairs|
  {
    if pairs != [] && pairs[0].key != "id" {
      IdMeans(pairs[1..], Mapping("", "", pairs[1..]), if i > 0 then i - 1 else 0);
    }
  }

  /** Items of a sequence that have the same id; `agree` lets them if their content is the same. */
  ghost predicate SameIdsOk(agree: bool, items: seq<Node>)
    decreases items, 1
  {
    forall i, j :: 0 <= i < j < |items| && IdOf(items[i]) != "" && IdOf(items[i]) == IdOf(items[j]) ==>
                     agree && ContentOf(items[i]) == ContentOf(items[j])
  }

  /** The same, for all the sequences in a tree. */
  ghost predicate IdsOk(agree: bool, n: Node)
    decreases n
  {
    match n
    case Scalar(_, _, _) => true
    case Mapping(_, _, pairs) => forall i :: 0 <= i < |pairs| ==> IdsOk(agree, pairs[i].val)
    case Sequence(_, _, items) => SameIdsOk(agree, items) && forall i :: 0 <= i < |items| ==> IdsOk(agree, items[i])
  }

  /** No two items of a sequence have the same id. */
  ghost predicate IdsUnique(n: Node) {
    IdsOk(false, n)
  }

  /** Two items of a sequence with the same id have the same content. */
  ghost predicate IdsAgree(n: Node) {
    IdsOk(true, n)
  }

  lemma {:induction false} UniqueIdsAgree(n: Node)
    requires IdsUnique(n)
    ensures IdsAgree(n)
    decreases n
  {
    match n
    case Scalar(_, _, _) =>
    case Mapping(_, _, pairs) => forall i | 0 <= i < |pairs| ensures IdsAgree(pairs[i].val) { UniqueIdsAgree(pairs[i].val); }
    case Sequence(_, _, items) => forall i | 0 <= i < |items| ensures IdsAgree(items[i]) { UniqueIdsAgree(items[i]); }
  }

  // ---- What a merge shows ----

  /**
    `c` is the content of `d` merged with `s`. Without `keep` it is that of `s`. With
    `keep`, mappings that meet have the keys of both, lists that meet have the items of
    `s`, each as it is or merged with an item of `d`, and everything else is as in `s`.
  */
  ghost predicate Merges(keep: bool, c: Content, d: Content, s: Content)
    decreases s
  {
    if !keep then c == s
    else if d.Dict? && s.Dict? then
      && c.Dict? && c.entries.Keys == d.entries.Keys + s.entries.Keys
      && (forall key :: key in d.entries && key !in s.entries ==> c.entries[key] == d.entries[key])
      && (forall key :: key in s.entries ==>
                          if key in d.entries then Merges(keep, c.entries[key], d.entries[key], s.entries[key])
                          else c.entries[key] == s.entries[key])
    else if d.List? && s.List? then
      && c.List? && |c.items| == |s.items|
      && forall i :: 0 <= i < |s.items| ==>
                       c.items[i] == s.items[i]
                       || exists j :: 0 <= j < |d.items| && Merges(keep, c.items[i], d.items[j], s.items[i])
    else c == s
  }

  // ---- Default tags ----

  const MAP_TAG := "!!map"
  const SEQ_TAG := "!!seq"

  /** No collection has a tag of its own. */
  ghost predicate Plain(n: Node)
    decreases n
  {
    match n
    case Scalar(_, _, _) => true
    case Mapping(_, tag, pairs) => tag == MAP_TAG && forall i :: 0 <= i < |pairs| ==> Plain(pairs[i].val)
    case Sequence(_, tag, items) => tag == SEQ_TAG && forall i :: 0 <= i < |items| ==> Plain(items[i])
  }

  /** The content with the tags of collections. */
  datatype Tagged = TLeaf(tag: string, value: string) | TDict(tag: string, entries: map<string, Tagged>) | TList(tag: string, items: seq<Tagged>)

  ghost function TaggedOf(n: Node): Tagged
    decreases n
  {
    match n
    case Scalar(_, tag, value) => TLeaf(tag, value)
    case Mapping(_, tag, pairs) => TDict(tag, map key | key in Keys(pairs) :: TaggedOf(ValueOf(pairs, key)))
    case Sequence(_, tag, items) => TList(tag, seq(|items|, i requires 0 <= i < |items| => TaggedOf(items[i])))
  }

  ghost function WithTags(c: Content): Tagged
    decreases c
  {
    match c
    case Leaf(tag, value) => TLeaf(tag, value)
    case Dict(entries) => TDict(MAP_TAG, map key | key in entries :: WithTags(entries[key]))
    case List(items) => TList(SEQ_TAG, seq(|items|, i requires 0 <= i < |items| => WithTags(items[i])))
  }

  /** In a plain tree the content determines all tags. */
  lemma {:induction false} PlainTags(n: Node)
    requires Plain(n)
    ensures TaggedOf(n) == WithTags(ContentOf(n))
    decreases n
  {
    match n
    case Scalar(_, _, _) =>
    case Mapping(_, _, pairs) =>
      forall key | key in Keys(pairs) ensures TaggedOf(ValueOf(pairs, key)) == WithTags(ContentOf(ValueOf(pairs, key))) {
        PlainTags(ValueOf(pairs, key));
      }
    case Sequence(_, _, items) =>
      forall i | 0 <= i < |items| ensures TaggedOf(items[i]) == WithTags(ContentOf(items[i])) { PlainTags(items[i]); }
      assert TaggedOf(n).items == WithTags(ContentOf(n)).items;
  }
}
