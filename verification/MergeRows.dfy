/** What applying an event does, column by column. */
module MergeRows {
  import opened Base
  import opened Merge

  ghost predicate UnderOwnIds(t: Table) {
    forall id :: id in t ==> t[id].id == id
  }

  // ---- Creations ----

  /** A live row records the run of the event: the same command, start, directory and device, and there is a directory. */
  ghost predicate RunIsThere(t: Table, ev: Event)
    requires ev.body.HistoryCreated?
  {
    exists id :: id in t && !t[id].deleted && t[id].cwd != "" && t[id].cwd == ev.body.c.cwd
                 && t[id].command == ev.body.c.command && t[id].start == ev.body.c.start && t[id].device == ev.device
  }

  ghost predicate OriginIsThere(t: Table, device: string, seqNo: int) {
    device != "" && exists id :: id in t && t[id].originDevice == device && t[id].originSeq == Some(seqNo)
  }

  /** The stored row, from the columns of the event. */
  ghost predicate RowOfEvent(e: Entry, ev: Event)
    requires ev.body.HistoryCreated?
  {
    var c := ev.body.c;
    && e.id == c.id && e.command == c.command && e.start == c.start
    && (if c.end > 0 then e.end == Some(c.end) else e.end == None)
    && (if c.duration > 0 then e.duration == Some(c.duration) else e.duration == None)
    && e.exit == c.exit && e.cwd == c.cwd && e.session == c.session && e.hostname == c.hostname && e.shell == c.shell
    && e.device == ev.device && e.originDevice == ev.device && e.originSeq == Some(ev.seqNo) && !e.deleted
  }

  /**
    A creation adds one row or none. It adds one if and only if neither its id, nor its
    origin, nor a live row of its run is there; it is reported unless its origin is.
  */
  lemma CreatedMeans(t: Table, ev: Event)
    requires ev.body.HistoryCreated? && UnderOwnIds(t)
    ensures var (t', e) := ApplyCreated(t, ev);
            var free := ev.body.c.id !in t && !OriginIsThere(t, ev.device, ev.seqNo) && !RunIsThere(t, ev);
            && t'.Keys == (if free then t.Keys + {ev.body.c.id} else t.Keys)
            && (forall id :: id in t ==> t'[id] == t[id])
            && (free ==> RowOfEvent(t'[ev.body.c.id], ev))
            && (e.None? <==> OriginIsThere(t, ev.device, ev.seqNo))
            && (e.Some? ==> RowOfEvent(e.value, ev))
  {
    var e := EntryOf(ev);
    OriginMeans(t, ev.device, ev.seqNo);
    assert OriginOf(e) == if ev.device != "" then Some(EventOrigin(ev)) else None;
    if RunIsThere(t, ev) {
      var id :| id in t && !t[id].deleted && t[id].cwd != "" && t[id].cwd == ev.body.c.cwd
                && t[id].command == ev.body.c.command && t[id].start == ev.body.c.start && t[id].device == ev.device;
      assert Collides(t[id], e);
    }
    if ev.body.c.id in t { assert Collides(t[ev.body.c.id], e); }
  }

  lemma OriginMeans(t: Table, device: string, seqNo: int)
    ensures OriginIsThere(t, device, seqNo) <==> device != "" && HasOrigin(t, Origin(device, seqNo))
  {
    if OriginIsThere(t, device, seqNo) {
      var id :| id in t && t[id].originDevice == device && t[id].originSeq == Some(seqNo);
      assert OriginOf(t[id]) == Some(Origin(device, seqNo));
    }
  }

  // ---- Tombstones ----

  /** The tombstone hits the row: by its id, or by its origin if it carries one. */
  predicate Hits(p: Tombstone, id: string, e: Entry) {
    || (p.historyId != "" && id == p.historyId)
    || (p.originDevice != "" && p.originSeq > 0 && e.originDevice == p.originDevice && e.originSeq == Some(p.originSeq))
  }

  /** The deleted row that holds the place of an origin. */
  ghost predicate HoldsPlace(e: Entry, id: string, p: Tombstone) {
    && e.id == id && e.deleted && e.originDevice == p.originDevice && e.originSeq == Some(p.originSeq)
    && e.device == p.originDevice && e.command == "" && e.start == 0 && e.cwd == ""
    && e.end == None && e.duration == None && e.exit == None && e.session == "" && e.hostname == "" && e.shell == ""
  }

  function NewId(p: Tombstone): string {
    if p.historyId == "" then "tombstone:" + p.originDevice + ":" + Decimal(p.originSeq) else p.historyId
  }

  ghost predicate Adds(t: Table, p: Tombstone) {
    p.originDevice != "" && p.originSeq > 0 && !OriginIsThere(t, p.originDevice, p.originSeq) && NewId(p) !in t
  }

  /**
    A tombstone deletes the rows it hits and changes no other column. It adds a row for
    its origin if and only if it carries one that no row has and the id is free.
  */
  ghost predicate Buried(t: Table, p: Tombstone, t': Table) {
    && t'.Keys == (if Adds(t, p) then t.Keys + {NewId(p)} else t.Keys)
    && (forall id :: id in t ==> t'[id] == t[id].(deleted := t[id].deleted || Hits(p, id, t[id])))
    && (Adds(t, p) ==> HoldsPlace(t'[NewId(p)], NewId(p), p))
  }

  lemma TombstoneMeans(t: Table, p: Tombstone)
    requires UnderOwnIds(t)
    ensures Buried(t, p, ApplyTombstone(t, p).0)
  {
    var o := TombOrigin(p);
    var t1 := if p.historyId != "" then DeleteById(t, p.historyId) else t;
    OriginMeans(t, p.originDevice, p.originSeq);
    assert forall id :: id in t ==> OriginOf(t1[id]) == OriginOf(t[id]);
    SameOrigins(t, t1, o);
    if CarriesOrigin(p) {
      if HasOrigin(t1, o) {
        FoundMeans(t, p, t1);
      } else {
        PlaceMeans(t, p, t1);
      }
    }
  }

  lemma FoundMeans(t: Table, p: Tombstone, t1: Table)
    requires t1 == (if p.historyId != "" then DeleteById(t, p.historyId) else t) && p.originDevice != "" && p.originSeq > 0
    requires OriginIsThere(t, p.originDevice, p.originSeq)
    ensures Buried(t, p, DeleteByOrigin(t1, TombOrigin(p)))
  {
  }

  lemma PlaceMeans(t: Table, p: Tombstone, t1: Table)
    requires t1 == (if p.historyId != "" then DeleteById(t, p.historyId) else t) && p.originDevice != "" && p.originSeq > 0
    requires UnderOwnIds(t) && !OriginIsThere(t, p.originDevice, p.originSeq)
    ensures Buried(t, p, InsertOrIgnore(t1, Placeholder(NewId(p), TombOrigin(p))))
    ensures NewId(p) == if p.historyId == "" then TombstoneId(TombOrigin(p)) else p.historyId
  {
    IdText(TombOrigin(p));
    var ph := Placeholder(NewId(p), TombOrigin(p));
    if NewId(p) in t { assert Collides(t1[NewId(p)], ph); }
    forall id | id in t1 && id != NewId(p) ensures !Collides(t1[id], ph) {
      assert t1[id].originDevice == t[id].originDevice && t1[id].originSeq == t[id].originSeq;
    }
  }

  lemma SameOrigins(t: Table, t1: Table, o: Origin)
    requires t.Keys == t1.Keys && forall id :: id in t ==> OriginOf(t1[id]) == OriginOf(t[id])
    ensures HasOrigin(t, o) <==> HasOrigin(t1, o)
  {
    if HasOrigin(t, o) {
      var id :| id in t && OriginOf(t[id]) == Some(o);
      assert OriginOf(t1[id]) == Some(o);
    }
  }

  lemma IdText(o: Origin)
    ensures TombstoneId(o) == "tombstone:" + o.device + ":" + Decimal(o.seqNo)
    ensures OriginId(o) == "origin:" + o.device + ":" + Decimal(o.seqNo)
  {
  }

  /** The ids it reports to the cache. */
  lemma TombstoneReportsIds(t: Table, p: Tombstone)
    ensures var ids := ApplyTombstone(t, p).1;
            var named := if p.historyId != "" then [p.historyId] else [];
            if p.originDevice == "" || p.originSeq <= 0 then ids == named
            else if !OriginIsThere(t, p.originDevice, p.originSeq) then ids == named + [NewId(p)]
            else ids == if p.historyId != "" then named else ["origin:" + p.originDevice + ":" + Decimal(p.originSeq)]
  {
    var o := TombOrigin(p);
    var t1 := if p.historyId != "" then DeleteById(t, p.historyId) else t;
    OriginMeans(t, p.originDevice, p.originSeq);
    assert forall id :: id in t ==> OriginOf(t1[id]) == OriginOf(t[id]);
    SameOrigins(t, t1, o);
    IdText(o);
  }

  // ---- Numbers as text ----

  /** The number that a string of digits stands for. */
  function Value(digits: string): int {
    if digits == "" then 0 else 10 * Value(digits[..|digits| - 1]) + (digits[|digits| - 1] as int - '0' as int)
  }

  lemma {:induction false} DigitsValue(n: nat)
    ensures Value(Digits(n)) == n && (n > 0 ==> Digits(n)[0] != '0') && |Digits(n)| >= 1
    ensures forall i :: 0 <= i < |Digits(n)| ==> '0' <= Digits(n)[i] <= '9'
    decreases n
  {
    if n >= 10 {
      DigitsValue(n / 10);
      assert Digits(n)[..|Digits(n)| - 1] == Digits(n / 10);
    } else {
      assert Digits(n)[..0] == "";
    }
  }

  /** Decimal notation: an optional minus sign and digits without leading zeros that stand for the number. */
  lemma DecimalMeans(n: int)
    ensures n >= 0 ==> Value(Decimal(n)) == n
    ensures n < 0 ==> Decimal(n)[..1] == "-" && Value(Decimal(n)[1..]) == -n
  {
    if n < 0 {
      assert Decimal(n)[1..] == Digits(-n);
      DigitsValue(-n);
    } else {
      DigitsValue(n);
    }
  }

  // ---- Whole transactions ----

  /** The changes of a transaction are those of its events, in order. */
  lemma ChangesInOrder(t: Table, evs: seq<Event>, ev: Event)
    requires ApplyAll(t, evs).Applied? && ApplyTracked(ApplyAll(t, evs).table, ev).Applied?
    ensures ApplyAll(t, evs + [ev]).Applied?
    ensures var cs, one, all := ApplyAll(t, evs).changes, ApplyTracked(ApplyAll(t, evs).table, ev).changes, ApplyAll(t, evs + [ev]).changes;
            && all.created == cs.created + one.created && all.tombstoned == cs.tombstoned + one.tombstoned
            && all.completed == cs.completed + one.completed && all.commands == cs.commands + one.commands
  {
    assert (evs + [ev])[..|evs|] == evs;
  }

  /** What one event reports: a creation its entry, a tombstone its ids, other known events nothing. */
  lemma TrackedMeans(t: Table, ev: Event)
    ensures ApplyTracked(t, ev).Failed? <==> ev.body.Undecodable? || ev.body.Unknown?
    ensures ApplyTracked(t, ev).Applied? ==>
              var Applied(t', cs) := ApplyTracked(t, ev);
              && cs.completed == [] && cs.commands == []
              && (ev.body.HistoryCreated? ==> var (t1, e) := ApplyCreated(t, ev);
                                              t' == t1 && cs.tombstoned == [] && cs.created == if e.Some? && ev.body.c.id != "" then [e.value] else [])
              && (ev.body.HistoryTombstoned? ==> t' == ApplyTombstone(t, ev.body.t).0 && cs.tombstoned == ApplyTombstone(t, ev.body.t).1 && cs.created == [])
              && (ev.body.DeviceMeta? || ev.body.CheckpointRef? ==> t' == t && cs.created == [] && cs.tombstoned == [])
  {
  }
}
