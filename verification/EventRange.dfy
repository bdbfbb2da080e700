/**
  Reading a range of a device's events. Creations that were compacted away, or that
  are stored without payload, are rebuilt from the history rows.
*/
module EventRange {
  import opened Base
  import opened Merge
  import opened Frontiers
  import opened EventLog

  ghost predicate OriginsUnique(t: Table) {
    forall i, j :: i in t && j in t && OriginOf(t[i]).Some? && OriginOf(t[i]) == OriginOf(t[j]) ==> i == j
  }

  /** A row with this origin, deleted or not. */
  ghost function RowAt(t: Table, o: Origin): (r: Option<Entry>)
    ensures r.Some? <==> HasOrigin(t, o)
  {
    if HasOrigin(t, o) then
      var id :| id in t && OriginOf(t[id]) == Some(o);
      Some(t[id])
    else None
  }

  method FindByOrigin(t: Table, o: Origin) returns (r: Option<Entry>)
    requires OriginsUnique(t)
    ensures r == RowAt(t, o)
  {
    var todo := t.Keys;
    while todo != {}
      invariant todo <= t.Keys
      invariant forall id :: id in t && id !in todo ==> OriginOf(t[id]) != Some(o)
    {
      var id :| id in todo;
      if OriginOf(t[id]) == Some(o) {
        return Some(t[id]);
      }
      todo := todo - {id};
    }
    r := None;
  }

  function OrZero(n: Option<int>): int {
    if n.Some? then n.value else 0
  }

  function CreatedOf(e: Entry): Created {
    Created(e.id, e.command, e.start, OrZero(e.end), OrZero(e.duration), e.exit, e.cwd, e.session, e.hostname, e.shell)
  }

  /** The tombstone of a row, as far as the row is known. */
  function TombstoneOf(t: Table, historyId: string): Tombstone {
    if historyId in t then Tombstone(historyId, t[historyId].originDevice, OrZero(t[historyId].originSeq))
    else Tombstone(historyId, "", 0)
  }

  // ---- Reading an event back ----

  /**
    The history rows, when each of them was inserted, and the clock. An observer who is
    not `timed` does not look at the times of events.
  */
  datatype History = History(rows: Table, made: string -> int, now: int, timed: bool)

  /** A time as the observer sees it. */
  function Seen(h: History, at: int): int {
    if h.timed then at else 0
  }

  /** The time stored with the event, or another one if there is none. */
  function TimeOf(h: History, r: Row, otherwise: int): int {
    Seen(h, if r.at != 0 then r.at else otherwise)
  }

  datatype Told = Told(body: Body, at: int)

  /** A stored event read back; `Blank` is an event without contents, number 0. */
  datatype Read = Found(told: Told) | Blank(at: int) | Broken

  /** The history row of a creation: by id if that is known, else by origin. */
  ghost function RowOf(t: Table, o: Origin, historyId: string): Option<Entry> {
    if historyId != "" && historyId in t then Some(t[historyId]) else RowAt(t, o)
  }

  ghost function Hydrate(h: History, o: Origin, r: Row): Read {
    if r.payload.Some? then (if r.payload.value.Undecodable? then Broken else Found(Told(r.payload.value, Seen(h, r.at))))
    else match r.kind
         case CreatedKind =>
           var e := RowOf(h.rows, o, r.historyId);
           if e.Some? then Found(Told(HistoryCreated(CreatedOf(e.value)), TimeOf(h, r, h.made(e.value.id)))) else Blank(TimeOf(h, r, 0))
         case TombstonedKind => Found(Told(HistoryTombstoned(TombstoneOf(h.rows, r.historyId)), TimeOf(h, r, h.now)))
         case OtherKind => Broken
  }

  method HydrateRow(h: History, o: Origin, r: Row) returns (read: Read)
    requires OriginsUnique(h.rows)
    ensures read == Hydrate(h, o, r)
  {
    if r.payload.Some? {
      return if r.payload.value.Undecodable? then Broken else Found(Told(r.payload.value, Seen(h, r.at)));
    }
    match r.kind {
      case CreatedKind =>
        var e: Option<Entry>;
        if r.historyId != "" && r.historyId in h.rows {
          e := Some(h.rows[r.historyId]);
        } else {
          e := FindByOrigin(h.rows, o);
        }
        return if e.Some? then Found(Told(HistoryCreated(CreatedOf(e.value)), TimeOf(h, r, h.made(e.value.id)))) else Blank(TimeOf(h, r, 0));
      case TombstonedKind => return Found(Told(HistoryTombstoned(TombstoneOf(h.rows, r.historyId)), TimeOf(h, r, h.now)));
      case OtherKind => return Broken;
    }
  }

  /** A creation that is rebuilt from its row has the columns it was made of; only a negative end or duration is lost. */
  lemma RebuiltCreation(ev: Event)
    requires ev.body.HistoryCreated?
    ensures var c, c' := ev.body.c, CreatedOf(EntryOf(ev));
            && c'.id == c.id && c'.command == c.command && c'.start == c.start && c'.exit == c.exit && c'.cwd == c.cwd
            && c'.session == c.session && c'.hostname == c.hostname && c'.shell == c.shell
            && c'.end == (if c.end > 0 then c.end else 0) && c'.duration == (if c.duration > 0 then c.duration else 0)
  {
  }

  /** Any row, column by column. */
  lemma RebuiltRow(e: Entry)
    ensures var c := CreatedOf(e);
            && c.id == e.id && c.command == e.command && c.start == e.start && c.exit == e.exit && c.cwd == e.cwd
            && c.session == e.session && c.hostname == e.hostname && c.shell == e.shell
            && c.end == (match e.end case Some(n) => n case None => 0)
            && c.duration == (match e.duration case Some(n) => n case None => 0)
  {
  }

  /** A stored tombstone is read back with its id, the origin of that row if it is there, and its own time or else the clock. */
  lemma RebuiltTombstone(h: History, o: Origin, r: Row)
    requires r.kind.TombstonedKind? && r.payload.None? && h.timed
    ensures var read := Hydrate(h, o, r);
            && read.Found? && read.told.body.HistoryTombstoned?
            && read.told.at == (if r.at != 0 then r.at else h.now)
            && read.told.body.t.historyId == r.historyId
            && (r.historyId in h.rows ==>
                  && read.told.body.t.originDevice == h.rows[r.historyId].originDevice
                  && read.told.body.t.originSeq == (match h.rows[r.historyId].originSeq case Some(n) => n case None => 0))
            && (r.historyId !in h.rows ==> read.told.body.t.originDevice == "" && read.told.body.t.originSeq == 0)
  {
  }

  /** A stored creation is read back from the row its id names, else from the row of its origin, else it is blank. */
  lemma ReadCreation(h: History, o: Origin, r: Row)
    requires OriginsUnique(h.rows) && r.kind.CreatedKind? && r.payload.None? && h.timed
    ensures var read := Hydrate(h, o, r);
            var named := r.historyId != "" && r.historyId in h.rows;
            && (named ==> read == Found(Told(HistoryCreated(CreatedOf(h.rows[r.historyId])), if r.at != 0 then r.at else h.made(h.rows[r.historyId].id))))
            && (!named ==> forall id :: id in h.rows && h.rows[id].originDevice == o.device && o.device != "" && h.rows[id].originSeq == Some(o.seqNo) ==>
                                          read == Found(Told(HistoryCreated(CreatedOf(h.rows[id])), if r.at != 0 then r.at else h.made(h.rows[id].id))))
            && (read.Blank? <==> !named && forall id :: id in h.rows ==> !(h.rows[id].originDevice == o.device && o.device != "" && h.rows[id].originSeq == Some(o.seqNo)))
  {
    forall id | id in h.rows && h.rows[id].originDevice == o.device && o.device != "" && h.rows[id].originSeq == Some(o.seqNo)
      ensures RowAt(h.rows, o) == Some(h.rows[id])
    {
      assert OriginOf(h.rows[id]) == Some(o);
      assert HasOrigin(h.rows, o);
    }
  }

  // ---- What a range is ----

  ghost predicate IsBroken(rows: Rows, h: History, o: Origin) {
    o in rows && Hydrate(h, o, rows[o]).Broken?
  }

  ghost predicate IsBlank(rows: Rows, h: History, o: Origin) {
    o in rows && Hydrate(h, o, rows[o]).Blank?
  }

  ghost predicate Fails(rows: Rows, h: History, device: string, lo: int, hi: int) {
    exists k :: lo <= k < hi && IsBroken(rows, h, Origin(device, k))
  }

  /** The last blank event in range has this time. */
  ghost predicate BlankAt(rows: Rows, h: History, device: string, lo: int, hi: int, at: int) {
    exists k :: LastBlank(rows, h, device, lo, hi, k) && Hydrate(h, Origin(device, k), rows[Origin(device, k)]).at == at
  }

  ghost predicate LastBlank(rows: Rows, h: History, device: string, lo: int, hi: int, k: int) {
    && lo <= k < hi && IsBlank(rows, h, Origin(device, k))
    && forall j :: k < j < hi ==> !IsBlank(rows, h, Origin(device, j))
  }

  ghost predicate HasBlank(rows: Rows, h: History, device: string, lo: int, hi: int) {
    exists k :: lo <= k < hi && IsBlank(rows, h, Origin(device, k))
  }

  /** What the stored rows give for number `k`. */
  ghost function StoredAt(rows: Rows, h: History, device: string, lo: int, hi: int, k: int): Option<Told> {
    var o := Origin(device, k);
    if lo <= k < hi && o in rows && Hydrate(h, o, rows[o]).Found? then Some(Hydrate(h, o, rows[o]).told) else None
  }

  /** A creation that only its history row remembers. */
  function Remembered(h: History, e: Entry): Told {
    Told(HistoryCreated(CreatedOf(e)), Seen(h, h.made(e.id)))
  }

  /** What the history rows add for number `k`. */
  ghost function OriginAt(h: History, device: string, lo: int, hi: int, k: int): Option<Told> {
    var e := RowAt(h.rows, Origin(device, k));
    if lo <= k < hi && e.Some? then Some(Remembered(h, e.value)) else None
  }

  ghost function ToldAt(rows: Rows, h: History, device: string, lo: int, hi: int, k: int): Option<Told> {
    var b := StoredAt(rows, h, device, lo, hi, k);
    if b.Some? then b else OriginAt(h, device, lo, hi, k)
  }

  /** An event of the answer; only the blank one, under number 0, has no body. */
  datatype Item = Item(seqNo: int, at: int, body: Option<Body>)

  function ItemOf(seqNo: int, told: Told): Item {
    Item(seqNo, told.at, Some(told.body))
  }

  ghost predicate Belongs(rows: Rows, h: History, device: string, lo: int, hi: int, x: Item) {
    if x.seqNo == 0 && HasBlank(rows, h, device, lo, hi) then x.body.None? && BlankAt(rows, h, device, lo, hi, x.at)
    else
      var told := ToldAt(rows, h, device, lo, hi, x.seqNo);
      told.Some? && x == ItemOf(x.seqNo, told.value)
  }

  ghost predicate Ascending(items: seq<Item>) {
    forall i, j :: 0 <= i < j < |items| ==> items[i].seqNo < items[j].seqNo
  }

  /** The answer to a query for the numbers from `lo` up to but not including `hi`. */
  ghost predicate IsRange(rows: Rows, h: History, device: string, lo: int, hi: int, r: Option<seq<Item>>) {
    if r.None? then Fails(rows, h, device, lo, hi)
    else
      && !Fails(rows, h, device, lo, hi) && Ascending(r.value)
      && forall x :: x in r.value <==> Belongs(rows, h, device, lo, hi, x)
  }

  // ---- Range ----

  type BySeq = map<int, Item>

  /** What has been gathered from the rows numbered below `k`. */
  ghost predicate Gathered(rows: Rows, h: History, device: string, lo: int, k: int, bySeq: BySeq) {
    && !Fails(rows, h, device, lo, k)
    && (forall n :: n in bySeq <==> (n == 0 && HasBlank(rows, h, device, lo, k)) || StoredAt(rows, h, device, lo, k, n).Some?)
    && (forall n :: n in bySeq && n != 0 ==> bySeq[n] == ItemOf(n, StoredAt(rows, h, device, lo, k, n).value))
    && (0 in bySeq ==> bySeq[0].seqNo == 0 && bySeq[0].body.None? && BlankAt(rows, h, device, lo, k, bySeq[0].at))
  }

  ghost predicate Numbered(rows: Rows) {
    forall o :: o in rows ==> o.seqNo >= 1
  }

  lemma GatherBlank(rows: Rows, h: History, device: string, lo: int, k: int, bySeq: BySeq)
    requires Numbered(rows) && lo <= k && Gathered(rows, h, device, lo, k, bySeq) && IsBlank(rows, h, Origin(device, k))
    ensures var at := Hydrate(h, Origin(device, k), rows[Origin(device, k)]).at;
            Gathered(rows, h, device, lo, k + 1, bySeq[0 := Item(0, at, None)])
  {
    assert LastBlank(rows, h, device, lo, k + 1, k);
    forall n ensures StoredAt(rows, h, device, lo, k + 1, n) == StoredAt(rows, h, device, lo, k, n) {
    }
  }

  lemma GatherOther(rows: Rows, h: History, device: string, lo: int, k: int, bySeq: BySeq)
    requires Numbered(rows) && lo <= k && Gathered(rows, h, device, lo, k, bySeq)
    requires !IsBlank(rows, h, Origin(device, k)) && !IsBroken(rows, h, Origin(device, k))
    ensures var told := StoredAt(rows, h, device, lo, k + 1, k);
            Gathered(rows, h, device, lo, k + 1, if told.Some? then bySeq[k := ItemOf(k, told.value)] else bySeq)
  {
    forall n | n != k ensures StoredAt(rows, h, device, lo, k + 1, n) == StoredAt(rows, h, device, lo, k, n) {
    }
    assert HasBlank(rows, h, device, lo, k + 1) <==> HasBlank(rows, h, device, lo, k);
    forall j ensures LastBlank(rows, h, device, lo, k + 1, j) <==> LastBlank(rows, h, device, lo, k, j) {
    }
  }

  method GatherStored(rows: Rows, h: History, device: string, lo: int, hi: int) returns (bySeq: Option<BySeq>)
    requires OriginsUnique(h.rows) && lo <= hi && Numbered(rows)
    ensures if bySeq.Some? then Gathered(rows, h, device, lo, hi, bySeq.value) else Fails(rows, h, device, lo, hi)
  {
    var m: BySeq := map[];
    for k := lo to hi
      invariant Gathered(rows, h, device, lo, k, m)
    {
      if Origin(device, k) !in rows {
        GatherOther(rows, h, device, lo, k, m);
        continue;
      }
      var read := HydrateRow(h, Origin(device, k), rows[Origin(device, k)]);
      match read {
        case Broken =>
          assert IsBroken(rows, h, Origin(device, k));
          return None;
        case Blank(at) =>
          GatherBlank(rows, h, device, lo, k, m);
          m := m[0 := Item(0, at, None)];
        case Found(told) =>
          GatherOther(rows, h, device, lo, k, m);
          m := m[k := ItemOf(k, told)];
      }
    }
    bySeq := Some(m);
  }

  /** The history rows fill in the numbers that no stored row gave. */
  method AddOrigins(h: History, device: string, lo: int, hi: int, stored: BySeq) returns (bySeq: BySeq)
    requires OriginsUnique(h.rows) && lo <= hi
    ensures forall n :: n in bySeq <==> n in stored || OriginAt(h, device, lo, hi, n).Some?
    ensures forall n :: n in bySeq ==> bySeq[n] == if n in stored then stored[n] else ItemOf(n, OriginAt(h, device, lo, hi, n).value)
  {
    bySeq := stored;
    for k := lo to hi
      invariant forall n :: n in bySeq <==> n in stored || OriginAt(h, device, lo, k, n).Some?
      invariant forall n :: n in bySeq ==> bySeq[n] == if n in stored then stored[n] else ItemOf(n, OriginAt(h, device, lo, k, n).value)
    {
      var e := FindByOrigin(h.rows, Origin(device, k));
      if e.Some? && k !in bySeq {
        bySeq := bySeq[k := ItemOf(k, Remembered(h, e.value))];
      }
    }
  }

  method SortItems(bySeq: BySeq) returns (items: seq<Item>)
    requires forall n :: n in bySeq ==> bySeq[n].seqNo == n
    ensures Ascending(items)
    ensures forall x :: x in items <==> x.seqNo in bySeq && bySeq[x.seqNo] == x
  {
    items := [];
    var todo: set<int> := bySeq.Keys;
    while todo != {}
      invariant todo <= bySeq.Keys && Ascending(items)
      invariant forall x :: x in items <==> x.seqNo in bySeq.Keys - todo && bySeq[x.seqNo] == x
    {
      assert (forall n :: n !in todo) ==> todo == {};
      var n :| n in todo;
      var x := bySeq[n];
      assert forall i :: 0 <= i < |items| ==> items[i] in items;
      var at := PlaceItem(items, x);
      items := items[..at] + [x] + items[at..];
      todo := todo - {n};
    }
  }

  method PlaceItem(items: seq<Item>, x: Item) returns (at: nat)
    requires Ascending(items) && forall i :: 0 <= i < |items| ==> items[i].seqNo != x.seqNo
    ensures at <= |items|
    ensures forall i :: 0 <= i < at ==> items[i].seqNo < x.seqNo
    ensures forall i :: at <= i < |items| ==> x.seqNo < items[i].seqNo
  {
    at := |items|;
    while at > 0 && x.seqNo < items[at - 1].seqNo
      invariant at <= |items|
      invariant forall i :: at <= i < |items| ==> x.seqNo < items[i].seqNo
    {
      at := at - 1;
    }
  }

  lemma OneBlank(rows: Rows, h: History, device: string, lo: int, hi: int, at: int, at': int)
    requires BlankAt(rows, h, device, lo, hi, at) && BlankAt(rows, h, device, lo, hi, at')
    ensures at == at'
  {
    var k :| LastBlank(rows, h, device, lo, hi, k) && Hydrate(h, Origin(device, k), rows[Origin(device, k)]).at == at;
    var k' :| LastBlank(rows, h, device, lo, hi, k') && Hydrate(h, Origin(device, k'), rows[Origin(device, k')]).at == at';
    assert k == k';
  }

  lemma GatheredBelong(rows: Rows, h: History, device: string, lo: int, hi: int, stored: BySeq, bySeq: BySeq, x: Item)
    requires Numbered(rows) && Gathered(rows, h, device, lo, hi, stored)
    requires forall n :: n in bySeq <==> n in stored || OriginAt(h, device, lo, hi, n).Some?
    requires forall n :: n in bySeq ==> bySeq[n] == if n in stored then stored[n] else ItemOf(n, OriginAt(h, device, lo, hi, n).value)
    ensures Belongs(rows, h, device, lo, hi, x) <==> x.seqNo in bySeq && bySeq[x.seqNo] == x
  {
    assert StoredAt(rows, h, device, lo, hi, 0).None?;
    if x.seqNo == 0 && BlankAt(rows, h, device, lo, hi, x.at) && 0 in stored {
      OneBlank(rows, h, device, lo, hi, x.at, stored[0].at);
    }
  }

  /** The answer as an observer sees it who looks at times. */
  method Range(rows: Rows, h: History, device: string, start: int, end: int) returns (r: Option<seq<Item>>)
    requires OriginsUnique(h.rows) && Numbered(rows) && h.timed
    ensures IsRange(rows, h, device, start, end + 1, r)
  {
    if end < start {
      return Some([]);
    }
    var lo, hi := start, end + 1;
    var stored := GatherStored(rows, h, device, lo, hi);
    if stored.None? {
      return None;
    }
    var bySeq := AddOrigins(h, device, lo, hi, stored.value);
    var items := SortItems(bySeq);
    forall x { GatheredBelong(rows, h, device, lo, hi, stored.value, bySeq, x); }
    r := Some(items);
  }

  // ---- There is one answer ----

  lemma {:induction false} SameItems(a: seq<Item>, b: seq<Item>, n: nat)
    requires Ascending(a) && Ascending(b) && (forall x :: x in a <==> x in b) && n <= |a| && n <= |b|
    ensures forall i :: 0 <= i < n ==> a[i] == b[i]
    decreases n
  {
    if n > 0 {
      SameItems(a, b, n - 1);
      SameNextItem(a, b, n - 1);
      SameNextItem(b, a, n - 1);
      assert a[n - 1] in b;
    }
  }

  lemma SameNextItem(a: seq<Item>, b: seq<Item>, k: nat)
    requires Ascending(a) && Ascending(b) && (forall x :: x in a <==> x in b) && k < |a| && k < |b|
    requires forall i :: 0 <= i < k ==> a[i] == b[i]
    ensures a[k].seqNo >= b[k].seqNo
    ensures a[k].seqNo == b[k].seqNo ==> a[k] == b[k]
  {
    assert a[k] in b;
    var j :| 0 <= j < |b| && b[j] == a[k];
  }

  lemma NotLonger(a: seq<Item>, b: seq<Item>)
    requires Ascending(a) && Ascending(b) && forall x :: x in a <==> x in b
    ensures |a| <= |b|
  {
    if |b| < |a| {
      SameItems(a, b, |b|);
      NextIsNotBefore(a, b);
    }
  }

  lemma NextIsNotBefore(a: seq<Item>, b: seq<Item>)
    requires Ascending(a) && |b| < |a| && forall i :: 0 <= i < |b| ==> a[i] == b[i]
    ensures exists x :: x in a && x !in b
  {
    var x := a[|b|];
    assert x in a && x !in b;
  }

  lemma ListingUnique(a: seq<Item>, b: seq<Item>)
    requires Ascending(a) && Ascending(b) && forall x :: x in a <==> x in b
    ensures a == b
  {
    NotLonger(a, b);
    NotLonger(b, a);
    SameItems(a, b, |a|);
  }

  // ---- Compaction ----

  /** Creations are stored without payload. */
  ghost predicate Thin(rows: Rows) {
    forall o :: o in rows && rows[o].kind.CreatedKind? ==> rows[o].payload.None?
  }

  /**
    A caller can check this of a creation: a history row carries its origin, the row
    its id names shows the same, and for an observer who looks at times, the event was
    stored without a time or with the time at which the history row was inserted.
  */
  ghost predicate Traceable(h: History, o: Origin, r: Row) {
    && HasOrigin(h.rows, o)
    && var e := RowAt(h.rows, o).value;
    && (r.historyId != "" && r.historyId in h.rows ==> CreatedOf(h.rows[r.historyId]) == CreatedOf(e))
    && (h.timed && r.at != 0 ==> r.at == h.made(e.id))
  }

  /** When the row named by the event carries the event's origin, only the time can show. */
  lemma OwnRowIsTraceable(h: History, o: Origin, r: Row)
    requires OriginsUnique(h.rows) && r.historyId in h.rows && OriginOf(h.rows[r.historyId]) == Some(o)
    ensures Traceable(h, o, r) <==> !h.timed || r.at == 0 || r.at == h.made(h.rows[r.historyId].id)
  {
    assert HasOrigin(h.rows, o);
  }

  /** One compacted creation reads the same before and after exactly when it is traceable. */
  lemma CompactedReadsSameIff(h: History, o: Origin, r: Row)
    requires r.kind.CreatedKind? && r.payload.None?
    ensures Traceable(h, o, r)
       <==> RowAt(h.rows, o).Some? && Hydrate(h, o, r) == Found(Remembered(h, RowAt(h.rows, o).value))
  {
    if RowAt(h.rows, o).Some? {
      var e, named := RowAt(h.rows, o).value, RowOf(h.rows, o, r.historyId).value;
      assert CreatedOf(e) == CreatedOf(named) ==> e.id == named.id;
    }
  }

  ghost predicate AllTraceable(rows: Rows, heads: Frontier, h: History) {
    forall o :: o in rows && Compactable(rows, heads, o) ==> Traceable(h, o, rows[o])
  }

  lemma ReadsStay(rows: Rows, heads: Frontier, h: History, o: Origin)
    requires Thin(rows) && AllTraceable(rows, heads, h)
    ensures IsBlank(Compacted(rows, heads), h, o) <==> IsBlank(rows, h, o)
    ensures IsBroken(Compacted(rows, heads), h, o) <==> IsBroken(rows, h, o)
    ensures IsBlank(rows, h, o) ==> Compacted(rows, heads)[o] == rows[o]
  {
    if o in rows && Compactable(rows, heads, o) {
      CompactedReadsSameIff(h, o, rows[o]);
    }
  }

  lemma ToldStays(rows: Rows, heads: Frontier, h: History, device: string, lo: int, hi: int, k: int)
    requires Thin(rows) && AllTraceable(rows, heads, h)
    ensures ToldAt(Compacted(rows, heads), h, device, lo, hi, k) == ToldAt(rows, h, device, lo, hi, k)
  {
    var o := Origin(device, k);
    if o in rows && Compactable(rows, heads, o) {
      CompactedReadsSameIff(h, o, rows[o]);
    }
  }

  lemma BlankStays(rows: Rows, heads: Frontier, h: History, device: string, lo: int, hi: int, at: int)
    requires Thin(rows) && AllTraceable(rows, heads, h)
    ensures BlankAt(Compacted(rows, heads), h, device, lo, hi, at) <==> BlankAt(rows, h, device, lo, hi, at)
    ensures HasBlank(Compacted(rows, heads), h, device, lo, hi) <==> HasBlank(rows, h, device, lo, hi)
    ensures Fails(Compacted(rows, heads), h, device, lo, hi) <==> Fails(rows, h, device, lo, hi)
  {
    forall o { ReadsStay(rows, heads, h, o); }
    forall k ensures LastBlank(Compacted(rows, heads), h, device, lo, hi, k) <==> LastBlank(rows, h, device, lo, hi, k) {
    }
  }

  /** Readers get the same events, in the same order, before and after compaction. */
  lemma CompactionIsInvisible(rows: Rows, heads: Frontier, h: History, device: string, lo: int, hi: int,
                              before: Option<seq<Item>>, after: Option<seq<Item>>)
    requires Thin(rows) && AllTraceable(rows, heads, h)
    requires IsRange(rows, h, device, lo, hi, before) && IsRange(Compacted(rows, heads), h, device, lo, hi, after)
    ensures before == after
  {
    BlankStays(rows, heads, h, device, lo, hi, 0);
    if before.Some? {
      forall x ensures x in before.value <==> x in after.value {
        BlankStays(rows, heads, h, device, lo, hi, x.at);
        ToldStays(rows, heads, h, device, lo, hi, x.seqNo);
        assert Belongs(rows, h, device, lo, hi, x) <==> Belongs(Compacted(rows, heads), h, device, lo, hi, x);
      }
      ListingUnique(before.value, after.value);
    }
  }

  /** The answer for one number. */
  ghost function OnlyAnswer(rows: Rows, h: History, o: Origin): seq<Item> {
    if IsBlank(rows, h, o) then [Item(0, Hydrate(h, o, rows[o]).at, None)]
    else
      var told := ToldAt(rows, h, o.device, o.seqNo, o.seqNo + 1, o.seqNo);
      if told.Some? then [ItemOf(o.seqNo, told.value)] else []
  }

  lemma OneNumber(rows: Rows, h: History, o: Origin)
    requires o.seqNo >= 1 && !IsBroken(rows, h, o) && (IsBlank(rows, h, o) ==> !HasOrigin(h.rows, o))
    ensures IsRange(rows, h, o.device, o.seqNo, o.seqNo + 1, Some(OnlyAnswer(rows, h, o)))
  {
    var lo, hi, items := o.seqNo, o.seqNo + 1, OnlyAnswer(rows, h, o);
    assert o == Origin(o.device, o.seqNo);
    assert HasBlank(rows, h, o.device, lo, hi) <==> IsBlank(rows, h, o);
    if IsBlank(rows, h, o) { assert LastBlank(rows, h, o.device, lo, hi, o.seqNo); }
    forall x ensures x in items <==> Belongs(rows, h, o.device, lo, hi, x) {
      assert ToldAt(rows, h, o.device, lo, hi, x.seqNo).Some? ==> x.seqNo == o.seqNo;
    }
  }

  /** A compacted creation that is not traceable shows: the range of its number has another answer afterwards. */
  lemma UntraceableShows(rows: Rows, heads: Frontier, h: History, o: Origin) returns (before: seq<Item>, after: seq<Item>)
    requires Thin(rows) && o.seqNo >= 1 && o in rows && Compactable(rows, heads, o) && !Traceable(h, o, rows[o])
    ensures IsRange(rows, h, o.device, o.seqNo, o.seqNo + 1, Some(before))
    ensures IsRange(Compacted(rows, heads), h, o.device, o.seqNo, o.seqNo + 1, Some(after))
    ensures before != after
  {
    before, after := OnlyAnswer(rows, h, o), OnlyAnswer(Compacted(rows, heads), h, o);
    assert o == Origin(o.device, o.seqNo);
    OneNumber(rows, h, o);
    OneNumber(Compacted(rows, heads), h, o);
    CompactedReadsSameIff(h, o, rows[o]);
  }

  /** In particular a creation whose history row lost its origin disappears. */
  lemma LostOriginShows(rows: Rows, heads: Frontier, h: History, o: Origin) returns (before: seq<Item>)
    requires Thin(rows) && o.seqNo >= 1 && o in rows && Compactable(rows, heads, o) && !HasOrigin(h.rows, o)
    ensures IsRange(rows, h, o.device, o.seqNo, o.seqNo + 1, Some(before)) && before != []
    ensures IsRange(Compacted(rows, heads), h, o.device, o.seqNo, o.seqNo + 1, Some([]))
  {
    var after;
    before, after := UntraceableShows(rows, heads, h, o);
    OneNumber(Compacted(rows, heads), h, o);
    assert o == Origin(o.device, o.seqNo);
    ListingUnique(after, OnlyAnswer(Compacted(rows, heads), h, o));
  }

  /** An event that came from another device keeps its number and body, and changes its time to that of the insertion here. */
  lemma TimeShows(rows: Rows, heads: Frontier, h: History, o: Origin, body: Body)
    requires OriginsUnique(h.rows) && Thin(rows) && o.seqNo >= 1 && o in rows && Compactable(rows, heads, o) && h.timed
    requires var id := rows[o].historyId; id in h.rows && OriginOf(h.rows[id]) == Some(o) && rows[o].at != 0
    requires body == HistoryCreated(CreatedOf(h.rows[rows[o].historyId]))
    ensures IsRange(rows, h, o.device, o.seqNo, o.seqNo + 1, Some([Item(o.seqNo, rows[o].at, Some(body))]))
    ensures IsRange(Compacted(rows, heads), h, o.device, o.seqNo, o.seqNo + 1,
                    Some([Item(o.seqNo, h.made(h.rows[rows[o].historyId].id), Some(body))]))
  {
    assert o == Origin(o.device, o.seqNo) && HasOrigin(h.rows, o);
    OneNumber(rows, h, o);
    OneNumber(Compacted(rows, heads), h, o);
  }

  /** No reader can tell the log from the compacted one. */
  ghost predicate Invisible(rows: Rows, heads: Frontier, h: History) {
    forall device, lo, hi, before, after ::
      IsRange(rows, h, device, lo, hi, before) && IsRange(Compacted(rows, heads), h, device, lo, hi, after) ==> before == after
  }

  /** Compaction is invisible in all ranges exactly when every creation it removes is traceable. */
  lemma CompactionIsInvisibleIff(rows: Rows, heads: Frontier, h: History)
    requires Thin(rows) && Numbered(rows)
    ensures Invisible(rows, heads, h) <==> AllTraceable(rows, heads, h)
  {
    if Invisible(rows, heads, h) {
      forall o | o in rows && Compactable(rows, heads, o) ensures Traceable(h, o, rows[o]) {
        if !Traceable(h, o, rows[o]) {
          var before, after := UntraceableShows(rows, heads, h, o);
        }
      }
    }
    if AllTraceable(rows, heads, h) {
      forall device, lo, hi, before, after
        | IsRange(rows, h, device, lo, hi, before) && IsRange(Compacted(rows, heads), h, device, lo, hi, after)
        ensures before == after
      {
        CompactionIsInvisible(rows, heads, h, device, lo, hi, before, after);
      }
    }
  }
}
