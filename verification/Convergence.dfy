/**
  Devices that have received the same events show the same history, whatever the
  order and the repetitions.
*/
module Convergence {
  import opened Base
  import opened Merge

  // ---- Placeholder ids are as distinct as the origins they stand for ----

  lemma {:induction false} DigitsAreDigits(n: nat)
    ensures Digits(n) != [] && forall i :: 0 <= i < |Digits(n)| ==> '0' <= Digits(n)[i] <= '9'
    decreases n
  {
    if n >= 10 { DigitsAreDigits(n / 10); }
  }

  lemma {:induction false} DigitsInjective(m: nat, n: nat)
    requires Digits(m) == Digits(n)
    ensures m == n
    decreases m
  {
    DigitsAreDigits(m / 10);
    DigitsAreDigits(n / 10);
    assert m < 10 <==> |Digits(m)| == 1;
    assert n < 10 <==> |Digits(n)| == 1;
    if m >= 10 {
      var dm, dn := Digits(m), Digits(n);
      assert Digits(m / 10) == dm[..|dm| - 1] && Digits(n / 10) == dn[..|dn| - 1];
      DigitsInjective(m / 10, n / 10);
      assert dm[|dm| - 1] == dn[|dn| - 1];
    }
  }

  lemma DecimalShape(n: int)
    ensures ':' !in Decimal(n)
  {
    DigitsAreDigits(if n < 0 then -n else n);
  }

  lemma MinusSign(n: int)
    ensures Decimal(n) != [] && (n < 0 <==> Decimal(n)[0] == '-')
  {
    DigitsAreDigits(if n < 0 then -n else n);
  }

  lemma DecimalInjective(m: int, n: int)
    requires Decimal(m) == Decimal(n)
    ensures m == n
  {
    MinusSign(m);
    MinusSign(n);
    if m < 0 {
      assert Digits(-m) == Decimal(m)[1..] && Digits(-n) == Decimal(n)[1..];
      DigitsInjective(-m, -n);
    } else {
      DigitsInjective(m, n);
    }
  }

  lemma TombstoneIdInjective(a: Origin, b: Origin)
    requires TombstoneId(a) == TombstoneId(b)
    ensures a == b
  {
    assert OriginText(a) == TombstoneId(a)[|"tombstone:"|..];
    assert OriginText(b) == TombstoneId(b)[|"tombstone:"|..];
    DecimalShape(a.seqNo);
    DecimalShape(b.seqNo);
    SplitAtLast(a.device, Decimal(a.seqNo), b.device, Decimal(b.seqNo), ':');
    DecimalInjective(a.seqNo, b.seqNo);
  }

  // ---- Well-formed events ----

  predicate Reserved(id: string) {
    "tombstone:" <= id || "origin:" <= id
  }

  /** The event says that history id `id` belongs to origin `o`. */
  predicate Names(ev: Event, id: string, o: Origin) {
    match ev.body
    case HistoryCreated(c) => id == c.id && o == EventOrigin(ev)
    case HistoryTombstoned(t) => t.historyId != "" && id == t.historyId && o == TombOrigin(t)
    case _ => false
  }

  predicate WellFormedEvent(ev: Event) {
    match ev.body
    case HistoryCreated(c) => ev.device != "" && c.id != "" && !Reserved(c.id)
    case HistoryTombstoned(t) => CarriesOrigin(t) && !Reserved(t.historyId)
    case DeviceMeta => true
    case CheckpointRef => true
    case _ => false
  }

  /** The events of one fleet: a history id belongs to one origin, and creations with one origin are one event. */
  ghost predicate Fleet(u: set<Event>) {
    && (forall ev :: ev in u ==> WellFormedEvent(ev))
    && (forall a, b, id, o, o' :: a in u && b in u && Names(a, id, o) && Names(b, id, o') ==> o == o')
    && (forall a, b :: a in u && b in u && a.body.HistoryCreated? && b.body.HistoryCreated? && EventOrigin(a) == EventOrigin(b) ==> a == b)
  }

  /** Two creations record the same run: one device, command, start and directory. Without a directory no two do. */
  predicate RecordSameRun(a: Event, b: Event)
    requires a.body.HistoryCreated? && b.body.HistoryCreated?
  {
    && a.body.c.cwd != "" && a.body.c.cwd == b.body.c.cwd
    && a.body.c.command == b.body.c.command && a.body.c.start == b.body.c.start && a.device == b.device
  }

  /** No two creations record the same run. */
  ghost predicate RunsApart(u: set<Event>) {
    forall a, b :: a in u && b in u && a.body.HistoryCreated? && b.body.HistoryCreated? && RecordSameRun(a, b) ==> a == b
  }

  ghost predicate WellFormed(u: set<Event>) {
    Fleet(u) && RunsApart(u)
  }

  /** The rows agree with what the events say about ids and origins. */
  ghost predicate Tidy(t: Table, u: set<Event>) {
    && (forall id :: id in t ==> t[id].id == id)
    && (forall i, j :: i in t && j in t && OriginOf(t[i]).Some? && OriginOf(t[i]) == OriginOf(t[j]) ==> i == j)
    && (forall id, ev, o :: id in t && ev in u && Names(ev, id, o) ==> OriginOf(t[id]) == Some(o))
    && (forall id :: id in t && Reserved(id) ==> OriginOf(t[id]).Some? && id == TombstoneId(OriginOf(t[id]).value))
  }

  /** A row has the command, start, directory and device of a creation. */
  predicate RecordsRunOf(e: Entry, ev: Event)
    requires ev.body.HistoryCreated?
  {
    && e.cwd != "" && e.cwd == ev.body.c.cwd
    && e.command == ev.body.c.command && e.start == ev.body.c.start && e.device == ev.device
  }

  /** A live row that records the run of a creation is the row of that creation. */
  ghost predicate RunsOwned(t: Table, u: set<Event>) {
    forall id, ev :: id in t && !t[id].deleted && ev in u && ev.body.HistoryCreated? && RecordsRunOf(t[id], ev) ==>
                       OriginOf(t[id]) == Some(EventOrigin(ev))
  }

  ghost predicate Consistent(t: Table, u: set<Event>) {
    Tidy(t, u) && RunsOwned(t, u)
  }

  // ---- One event ----

  /** A creation whose origin is new is always inserted; one whose origin is known changes nothing. */
  lemma CreatedStep(t: Table, u: set<Event>, ev: Event)
    requires WellFormed(u) && Consistent(t, u) && ev in u && ev.body.HistoryCreated?
    ensures HasOrigin(t, EventOrigin(ev)) ==> ApplyCreated(t, ev) == (t, None)
    ensures !HasOrigin(t, EventOrigin(ev)) ==>
              ev.body.c.id !in t && ApplyCreated(t, ev) == (t[ev.body.c.id := EntryOf(ev)], Some(EntryOf(ev)))
  {
    var e := EntryOf(ev);
    assert WellFormedEvent(ev);
    assert OriginOf(e) == Some(EventOrigin(ev));
    if !HasOrigin(t, EventOrigin(ev)) {
      assert Names(ev, e.id, EventOrigin(ev));
      forall id | id in t ensures !Collides(t[id], e) {
        assert OriginOf(t[id]) != Some(EventOrigin(ev));
      }
    }
  }

  lemma CreatedTidy(t: Table, u: set<Event>, ev: Event)
    requires Fleet(u) && Tidy(t, u) && ev in u && ev.body.HistoryCreated?
    requires !HasOrigin(t, EventOrigin(ev)) && ev.body.c.id !in t
    ensures Tidy(t[ev.body.c.id := EntryOf(ev)], u)
  {
    var e := EntryOf(ev);
    var t' := t[e.id := e];
    assert WellFormedEvent(ev) && OriginOf(e) == Some(EventOrigin(ev)) && Names(ev, e.id, EventOrigin(ev));
    forall i, j | i in t' && j in t' && OriginOf(t'[i]).Some? && OriginOf(t'[i]) == OriginOf(t'[j]) ensures i == j {
      assert forall id :: id in t ==> OriginOf(t[id]) != Some(EventOrigin(ev));
    }
  }

  lemma CreatedConsistent(t: Table, u: set<Event>, ev: Event)
    requires WellFormed(u) && Consistent(t, u) && ev in u && ev.body.HistoryCreated?
    requires !HasOrigin(t, EventOrigin(ev)) && ev.body.c.id !in t
    ensures Consistent(t[ev.body.c.id := EntryOf(ev)], u)
  {
    assert WellFormedEvent(ev);
    CreatedTidy(t, u, ev);
  }

  /** A tombstone deletes the row of its origin, or leaves a deleted row there for a creation to come. */
  lemma TombstoneStep(t: Table, u: set<Event>, ev: Event)
    requires Fleet(u) && Tidy(t, u) && ev in u && ev.body.HistoryTombstoned?
    ensures var p, o := ev.body.t, TombOrigin(ev.body.t);
            var ph := if p.historyId == "" then TombstoneId(o) else p.historyId;
            && (HasOrigin(t, o) ==> ApplyTombstone(t, p).0 == DeleteByOrigin(t, o))
            && (!HasOrigin(t, o) ==> ph !in t && ApplyTombstone(t, p).0 == t[ph := Placeholder(ph, o)])
  {
    var p := ev.body.t;
    var o := TombOrigin(p);
    assert WellFormedEvent(ev);
    if p.historyId != "" {
      assert Names(ev, p.historyId, o);
    }
    var t1 := if p.historyId != "" then DeleteById(t, p.historyId) else t;
    assert t1.Keys == t.Keys;
    assert forall id :: id in t ==> OriginOf(t1[id]) == OriginOf(t[id]);
    assert HasOrigin(t1, o) == HasOrigin(t, o);
    if HasOrigin(t, o) {
      assert DeleteByOrigin(t1, o) == DeleteByOrigin(t, o);
    } else {
      var ph := if p.historyId == "" then TombstoneId(o) else p.historyId;
      assert p.historyId != "" ==> p.historyId !in t;
      if p.historyId == "" && ph in t {
        TombstoneIdInjective(o, OriginOf(t[ph]).value);
      }
      assert ph !in t && t1 == t;
      var e := Placeholder(ph, o);
      forall id | id in t ensures !Collides(t[id], e) {
        assert OriginOf(t[id]) != Some(o);
      }
    }
  }

  lemma PlaceholderTidy(t: Table, u: set<Event>, ev: Event, ph: string)
    requires Fleet(u) && Tidy(t, u) && ev in u && ev.body.HistoryTombstoned?
    requires !HasOrigin(t, TombOrigin(ev.body.t)) && ph !in t
    requires ph == if ev.body.t.historyId == "" then TombstoneId(TombOrigin(ev.body.t)) else ev.body.t.historyId
    ensures Tidy(t[ph := Placeholder(ph, TombOrigin(ev.body.t))], u)
  {
    var o := TombOrigin(ev.body.t);
    var e := Placeholder(ph, o);
    var t' := t[ph := e];
    assert WellFormedEvent(ev) && OriginOf(e) == Some(o);
    if ev.body.t.historyId == "" {
      assert Reserved(ph) by { assert "tombstone:" <= ph; }
      forall ev', o' | ev' in u ensures !Names(ev', ph, o') {
        assert WellFormedEvent(ev');
      }
    } else {
      assert Names(ev, ph, o);
    }
    forall i, j | i in t' && j in t' && OriginOf(t'[i]).Some? && OriginOf(t'[i]) == OriginOf(t'[j]) ensures i == j {
      assert forall id :: id in t ==> OriginOf(t[id]) != Some(o);
    }
  }

  // ---- A whole delivery ----

  predicate Tombstoned(s: set<Event>, o: Origin) {
    exists ev :: ev in s && ev.body.HistoryTombstoned? && TombOrigin(ev.body.t) == o
  }

  predicate CreatedIn(s: set<Event>, o: Origin) {
    exists ev :: ev in s && ev.body.HistoryCreated? && EventOrigin(ev) == o
  }

  /** `r` is a row that one of the events creates, at an origin the table did not have. */
  predicate NewRow(t0: Table, s: set<Event>, r: Entry) {
    exists ev :: ev in s && ev.body.HistoryCreated? && EntryOf(ev) == r && !HasOrigin(t0, EventOrigin(ev))
  }

  predicate Deleted(s: set<Event>, r: Entry) {
    OriginOf(r).Some? && Tombstoned(s, OriginOf(r).value)
  }

  /** Reference: the live rows that a set of events makes of a table, without mention of any order. */
  predicate ExpectLive(t0: Table, s: set<Event>, r: Entry) {
    !Deleted(s, r) && ((r.id in t0 && t0[r.id] == r && !r.deleted) || NewRow(t0, s, r))
  }

  ghost predicate LiveRow(t: Table, r: Entry) {
    r.id in t && t[r.id] == r && !r.deleted
  }

  ghost predicate Represents(t0: Table, s: set<Event>, t: Table) {
    && (forall o :: HasOrigin(t, o) <==> HasOrigin(t0, o) || CreatedIn(s, o) || Tombstoned(s, o))
    && (forall r :: LiveRow(t, r) <==> ExpectLive(t0, s, r))
  }

  lemma RepresentsNothing(t: Table)
    ensures Represents(t, {}, t)
  {
  }

  lemma MoreEvents(s: set<Event>, ev: Event, o: Origin)
    ensures CreatedIn(s + {ev}, o) <==> CreatedIn(s, o) || (ev.body.HistoryCreated? && EventOrigin(ev) == o)
    ensures Tombstoned(s + {ev}, o) <==> Tombstoned(s, o) || (ev.body.HistoryTombstoned? && TombOrigin(ev.body.t) == o)
  {
  }

  /** A creation of a known origin changes nothing that is expected. */
  lemma KnownOriginLive(t0: Table, s: set<Event>, u: set<Event>, ev: Event, r: Entry)
    requires Fleet(u) && s <= u && ev in u && ev.body.HistoryCreated?
    requires HasOrigin(t0, EventOrigin(ev)) || CreatedIn(s, EventOrigin(ev)) || Tombstoned(s, EventOrigin(ev))
    ensures ExpectLive(t0, s + {ev}, r) <==> ExpectLive(t0, s, r)
  {
    var o := EventOrigin(ev);
    assert WellFormedEvent(ev);
    forall o' { MoreEvents(s, ev, o'); }
    if CreatedIn(s, o) {
      var ev' :| ev' in s && ev'.body.HistoryCreated? && EventOrigin(ev') == o;
      assert ev == ev';
      assert s + {ev} == s;
    } else if NewRow(t0, s, r) {
      var ev' :| ev' in s && ev'.body.HistoryCreated? && EntryOf(ev') == r && !HasOrigin(t0, EventOrigin(ev'));
      assert ev' in s + {ev};
    }
  }

  lemma CreatedRepresents(t0: Table, s: set<Event>, t: Table, u: set<Event>, ev: Event)
    requires WellFormed(u) && s <= u && ev in u && ev.body.HistoryCreated?
    requires Consistent(t, u) && Represents(t0, s, t)
    ensures Represents(t0, s + {ev}, ApplyCreated(t, ev).0) && Consistent(ApplyCreated(t, ev).0, u)
  {
    var o, e := EventOrigin(ev), EntryOf(ev);
    CreatedStep(t, u, ev);
    forall o' { MoreEvents(s, ev, o'); }
    if HasOrigin(t, o) {
      forall r { KnownOriginLive(t0, s, u, ev, r); }
    } else {
      CreatedConsistent(t, u, ev);
      assert WellFormedEvent(ev) && OriginOf(e) == Some(o);
      InsertRepresents(t0, s, t, ev);
    }
  }

  lemma InsertRepresents(t0: Table, s: set<Event>, t: Table, ev: Event)
    requires ev.body.HistoryCreated? && OriginOf(EntryOf(ev)) == Some(EventOrigin(ev))
    requires Represents(t0, s, t) && !HasOrigin(t, EventOrigin(ev)) && EntryOf(ev).id !in t
    ensures Represents(t0, s + {ev}, t[EntryOf(ev).id := EntryOf(ev)])
  {
    var o, e := EventOrigin(ev), EntryOf(ev);
    var t' := t[e.id := e];
    forall o' ensures HasOrigin(t', o') <==> HasOrigin(t, o') || o' == o {
      if o' == o { assert OriginOf(t'[e.id]) == Some(o'); }
      if HasOrigin(t, o') {
        var id :| id in t && OriginOf(t[id]) == Some(o');
        assert OriginOf(t'[id]) == Some(o');
      }
    }
    forall o' { MoreEvents(s, ev, o'); }
    assert !Tombstoned(s, o) && !HasOrigin(t0, o);
    forall r ensures LiveRow(t', r) <==> ExpectLive(t0, s + {ev}, r) {
      if r == e {
        assert ev in s + {ev};
        assert NewRow(t0, s + {ev}, e) && !Deleted(s + {ev}, e) && t'[e.id] == e;
      } else {
        assert NewRow(t0, s + {ev}, r) <==> NewRow(t0, s, r);
        assert Deleted(s + {ev}, r) <==> Deleted(s, r);
        assert LiveRow(t, r) <==> ExpectLive(t0, s, r);
      }
    }
  }

  lemma TombstoneRepresents(t0: Table, s: set<Event>, t: Table, u: set<Event>, ev: Event)
    requires WellFormed(u) && s <= u && ev in u && ev.body.HistoryTombstoned?
    requires Consistent(t, u) && Represents(t0, s, t)
    ensures Represents(t0, s + {ev}, ApplyTombstone(t, ev.body.t).0) && Consistent(ApplyTombstone(t, ev.body.t).0, u)
  {
    var p, o := ev.body.t, TombOrigin(ev.body.t);
    TombstoneStep(t, u, ev);
    if HasOrigin(t, o) {
      DeleteConsistent(t, u, o);
      DeleteRepresents(t0, s, t, ev);
    } else {
      var ph := if p.historyId == "" then TombstoneId(o) else p.historyId;
      PlaceholderTidy(t, u, ev, ph);
      PlaceholderOwned(t, u, ph, o);
      assert WellFormedEvent(ev);
      PlaceholderRepresents(t0, s, t, ev, ph);
    }
  }

  lemma DeleteConsistent(t: Table, u: set<Event>, o: Origin)
    requires Consistent(t, u)
    ensures Consistent(DeleteByOrigin(t, o), u)
  {
    var t' := DeleteByOrigin(t, o);
    assert forall id :: id in t ==> OriginOf(t'[id]) == OriginOf(t[id]);
  }

  lemma PlaceholderOwned(t: Table, u: set<Event>, ph: string, o: Origin)
    requires RunsOwned(t, u) && ph !in t
    ensures RunsOwned(t[ph := Placeholder(ph, o)], u)
  {
  }

  lemma ExpectAfterTombstone(t0: Table, s: set<Event>, ev: Event, r: Entry)
    requires ev.body.HistoryTombstoned?
    ensures ExpectLive(t0, s + {ev}, r) <==> ExpectLive(t0, s, r) && OriginOf(r) != Some(TombOrigin(ev.body.t))
  {
    forall o { MoreEvents(s, ev, o); }
    assert NewRow(t0, s + {ev}, r) <==> NewRow(t0, s, r);
  }

  lemma DeleteRepresents(t0: Table, s: set<Event>, t: Table, ev: Event)
    requires ev.body.HistoryTombstoned? && HasOrigin(t, TombOrigin(ev.body.t)) && Represents(t0, s, t)
    ensures Represents(t0, s + {ev}, DeleteByOrigin(t, TombOrigin(ev.body.t)))
  {
    var o := TombOrigin(ev.body.t);
    var t' := DeleteByOrigin(t, o);
    assert forall id :: id in t ==> OriginOf(t'[id]) == OriginOf(t[id]);
    forall o' ensures HasOrigin(t', o') <==> HasOrigin(t, o') {
      if HasOrigin(t, o') {
        var id :| id in t && OriginOf(t[id]) == Some(o');
        assert id in t' && OriginOf(t'[id]) == Some(o');
      }
    }
    forall o' { MoreEvents(s, ev, o'); }
    forall r ensures LiveRow(t', r) <==> ExpectLive(t0, s + {ev}, r) {
      ExpectAfterTombstone(t0, s, ev, r);
    }
  }

  lemma PlaceholderRepresents(t0: Table, s: set<Event>, t: Table, ev: Event, ph: string)
    requires ev.body.HistoryTombstoned? && CarriesOrigin(ev.body.t)
    requires !HasOrigin(t, TombOrigin(ev.body.t)) && ph !in t && Represents(t0, s, t)
    ensures Represents(t0, s + {ev}, t[ph := Placeholder(ph, TombOrigin(ev.body.t))])
  {
    var o := TombOrigin(ev.body.t);
    var e := Placeholder(ph, o);
    var t' := t[ph := e];
    forall o' ensures HasOrigin(t', o') <==> HasOrigin(t, o') || o' == o {
      if o' == o { assert OriginOf(t'[ph]) == Some(o'); }
      if HasOrigin(t, o') {
        var id :| id in t && OriginOf(t[id]) == Some(o');
        assert OriginOf(t'[id]) == Some(o');
      }
    }
    forall o' { MoreEvents(s, ev, o'); }
    forall r ensures LiveRow(t', r) <==> ExpectLive(t0, s + {ev}, r) {
      ExpectAfterTombstone(t0, s, ev, r);
    }
  }

  function Elements(evs: seq<Event>): set<Event> {
    set ev | ev in evs
  }

  /** After any delivery the table represents the events delivered. */
  lemma {:induction false} DeliveryRepresents(t0: Table, u: set<Event>, evs: seq<Event>)
    requires WellFormed(u) && Consistent(t0, u) && Elements(evs) <= u
    ensures ApplyAll(t0, evs).Applied?
    ensures Represents(t0, Elements(evs), ApplyAll(t0, evs).table) && Consistent(ApplyAll(t0, evs).table, u)
    decreases |evs|
  {
    if evs == [] {
      RepresentsNothing(t0);
    } else {
      var init, ev := evs[..|evs| - 1], evs[|evs| - 1];
      assert evs == init + [ev];
      assert Elements(evs) == Elements(init) + {ev};
      DeliveryRepresents(t0, u, init);
      var t := ApplyAll(t0, init).table;
      assert ev in u && WellFormedEvent(ev);
      match ev.body
      case HistoryCreated(_) => CreatedRepresents(t0, Elements(init), t, u, ev);
      case HistoryTombstoned(_) => TombstoneRepresents(t0, Elements(init), t, u, ev);
      case DeviceMeta => NoEffect(t0, Elements(init), t, ev);
      case CheckpointRef => NoEffect(t0, Elements(init), t, ev);
    }
  }

  lemma NoEffect(t0: Table, s: set<Event>, t: Table, ev: Event)
    requires Represents(t0, s, t) && (ev.body.DeviceMeta? || ev.body.CheckpointRef?)
    ensures Represents(t0, s + {ev}, t)
  {
    forall o { MoreEvents(s, ev, o); }
    forall r ensures ExpectLive(t0, s + {ev}, r) <==> ExpectLive(t0, s, r) {
      assert NewRow(t0, s + {ev}, r) <==> NewRow(t0, s, r);
    }
  }

  /** What a user sees. */
  function LiveView(t: Table): Table {
    map id | id in t && !t[id].deleted :: t[id]
  }

  /**
    Starting from the same history, two devices that have received the same set of
    events, in whatever order and with whatever repetitions, show the same history.
  */
  lemma {:induction false} Converges(t0: Table, u: set<Event>, evs: seq<Event>, evs': seq<Event>)
    requires WellFormed(u) && Consistent(t0, u) && Elements(evs) <= u && Elements(evs) == Elements(evs')
    ensures ApplyAll(t0, evs).Applied? && ApplyAll(t0, evs').Applied?
    ensures LiveView(ApplyAll(t0, evs).table) == LiveView(ApplyAll(t0, evs').table)
  {
    DeliveryRepresents(t0, u, evs);
    DeliveryRepresents(t0, u, evs');
    var t, t' := ApplyAll(t0, evs).table, ApplyAll(t0, evs').table;
    assert forall r :: LiveRow(t, r) <==> LiveRow(t', r);
    forall id | id in t && !t[id].deleted ensures id in t' && !t'[id].deleted && t'[id] == t[id] {
      assert LiveRow(t, t[id]);
    }
    forall id | id in t' && !t'[id].deleted ensures id in t && !t[id].deleted {
      assert LiveRow(t', t'[id]);
    }
  }

  /** From an empty history: the live rows are exactly the created events whose origin is not tombstoned. */
  lemma LiveRowsOfEvents(u: set<Event>, evs: seq<Event>, r: Entry)
    requires WellFormed(u) && Elements(evs) <= u
    ensures ApplyAll(map[], evs).Applied?
    ensures LiveRow(ApplyAll(map[], evs).table, r)
       <==> exists ev :: ev in evs && ev.body.HistoryCreated? && EntryOf(ev) == r && !Tombstoned(Elements(evs), EventOrigin(ev))
  {
    DeliveryRepresents(map[], u, evs);
    var s := Elements(evs);
    forall ev | ev in evs && ev.body.HistoryCreated? ensures OriginOf(EntryOf(ev)) == Some(EventOrigin(ev)) {
      assert ev in u && WellFormedEvent(ev);
    }
    if ExpectLive(map[], s, r) {
      var ev :| ev in s && ev.body.HistoryCreated? && EntryOf(ev) == r;
      assert ev in evs;
    }
    if exists ev :: ev in evs && ev.body.HistoryCreated? && EntryOf(ev) == r && !Tombstoned(s, EventOrigin(ev)) {
      var ev :| ev in evs && ev.body.HistoryCreated? && EntryOf(ev) == r && !Tombstoned(s, EventOrigin(ev));
      assert ev in s && NewRow(map[], s, r);
    }
  }

  // ---- The hypotheses are needed ----

  lemma ApplyTwo(t: Table, a: Event, b: Event)
    requires ApplyTracked(t, a).Applied? && ApplyTracked(ApplyTracked(t, a).table, b).Applied?
    ensures ApplyAll(t, [a, b]).Applied?
    ensures ApplyAll(t, [a, b]).table == ApplyTracked(ApplyTracked(t, a).table, b).table
  {
    assert [a, b][..1] == [a] && [a][..0] == [];
    assert ApplyAll(t, []) == Applied(t, NO_CHANGES);
    assert ApplyAll(t, [a]).table == ApplyTracked(t, a).table;
  }

  lemma FreshOrigin(t0: Table, e: Entry)
    requires !Conflicts(t0, e)
    ensures e.id !in t0 || t0[e.id].id != e.id
    ensures OriginOf(e).Some? ==> !HasOrigin(t0, OriginOf(e).value)
  {
  }

  /** Deleting the row again leaves what was live before. */
  lemma DeletedRow(t0: Table, e: Entry, p: Tombstone)
    requires e.id !in t0 && !e.deleted && OriginOf(e).Some? && !HasOrigin(t0, OriginOf(e).value) && p.historyId == e.id != ""
    requires CarriesOrigin(p) ==> TombOrigin(p) == OriginOf(e).value
    ensures LiveView(ApplyTombstone(t0[e.id := e], p).0) == LiveView(t0)
  {
    var t1 := t0[e.id := e];
    var t2 := DeleteById(t1, e.id);
    assert e.id in t2 && OriginOf(t2[e.id]) == OriginOf(e);
    if CarriesOrigin(p) {
      assert HasOrigin(t2, TombOrigin(p));
      var t3 := DeleteByOrigin(t2, TombOrigin(p));
      assert forall id :: id in t0 ==> t3[id] == t0[id];
      assert ApplyTombstone(t1, p).0 == t3;
    }
  }

  /** A placeholder is put where a creation would be, and shows nothing. */
  lemma HeldRow(t0: Table, e: Entry, p: Tombstone)
    requires !Conflicts(t0, e) && e.id !in t0 && OriginOf(e).Some? && p.historyId == e.id != "" && CarriesOrigin(p)
    requires TombOrigin(p) == OriginOf(e).value
    ensures var t := ApplyTombstone(t0, p).0;
            HasOrigin(t, OriginOf(e).value) && LiveView(t) == LiveView(t0)
  {
    var o := OriginOf(e).value;
    var ph := Placeholder(e.id, o);
    FreshOrigin(t0, e);
    forall id | id in t0 ensures !Collides(t0[id], ph) {
      assert !Collides(t0[id], e);
    }
    var t := t0[e.id := ph];
    assert ApplyTombstone(t0, p).0 == t;
    assert OriginOf(t[e.id]) == Some(o);
  }

  /**
    On any table that would take the creation, a tombstone naming its history id commutes
    with it exactly when it carries the row's origin: a bare id is forgotten if the row is
    not there yet.
  */
  lemma TombstoneCommutesIff(t0: Table, c: Event, t: Event)
    requires c.body.HistoryCreated? && c.device != "" && c.body.c.id != "" && c.body.c.id !in t0 && !Conflicts(t0, EntryOf(c))
    requires t.body.HistoryTombstoned? && t.body.t.historyId == c.body.c.id
    requires CarriesOrigin(t.body.t) ==> TombOrigin(t.body.t) == EventOrigin(c)
    ensures ApplyAll(t0, [c, t]).Applied? && ApplyAll(t0, [t, c]).Applied?
    ensures LiveView(ApplyAll(t0, [c, t]).table) == LiveView(ApplyAll(t0, [t, c]).table)
       <==> CarriesOrigin(t.body.t)
  {
    var p, e := t.body.t, EntryOf(c);
    FreshOrigin(t0, e);
    ApplyTwo(t0, c, t);
    assert ApplyTracked(t0, c).table == t0[e.id := e];
    DeletedRow(t0, e, p);
    TombstoneFirst(t0, c, t);
  }

  lemma TombstoneFirst(t0: Table, c: Event, t: Event)
    requires c.body.HistoryCreated? && c.device != "" && c.body.c.id != "" && c.body.c.id !in t0 && !Conflicts(t0, EntryOf(c))
    requires t.body.HistoryTombstoned? && t.body.t.historyId == c.body.c.id
    requires CarriesOrigin(t.body.t) ==> TombOrigin(t.body.t) == EventOrigin(c)
    ensures ApplyAll(t0, [t, c]).Applied?
    ensures LiveView(ApplyAll(t0, [t, c]).table) == LiveView(t0) <==> CarriesOrigin(t.body.t)
  {
    var p, e := t.body.t, EntryOf(c);
    FreshOrigin(t0, e);
    ApplyTwo(t0, t, c);
    if CarriesOrigin(p) {
      HeldRow(t0, e, p);
    } else {
      assert ApplyTracked(t0, t).table == t0;
      assert ApplyTracked(t0, c).table == t0[e.id := e];
      assert e.id in LiveView(t0[e.id := e]) && e.id !in LiveView(t0);
    }
  }

  /** What a second creation finds where the first was inserted. */
  lemma SecondCreation(t0: Table, a: Event, b: Event)
    requires a.body.HistoryCreated? && b.body.HistoryCreated? && a.device != "" && b.device != ""
    requires a.body.c.id != b.body.c.id && EventOrigin(a) != EventOrigin(b)
    requires !Conflicts(t0, EntryOf(a)) && !Conflicts(t0, EntryOf(b)) && a.body.c.id !in t0 && b.body.c.id !in t0
    ensures ApplyAll(t0, [a, b]).Applied?
    ensures ApplyAll(t0, [a, b]).table
         == if SameRun(EntryOf(a), EntryOf(b)) then t0[a.body.c.id := EntryOf(a)]
            else t0[a.body.c.id := EntryOf(a)][b.body.c.id := EntryOf(b)]
  {
    var ea, eb := EntryOf(a), EntryOf(b);
    FreshOrigin(t0, ea);
    FreshOrigin(t0, eb);
    ApplyTwo(t0, a, b);
    var t1 := t0[ea.id := ea];
    assert ApplyTracked(t0, a).table == t1;
    assert !HasOrigin(t1, EventOrigin(b));
    if SameRun(ea, eb) {
      assert Collides(t1[ea.id], eb);
    } else {
      forall id | id in t1 ensures !Collides(t1[id], eb) {
        if id != ea.id { assert !Collides(t0[id], eb); }
      }
    }
  }

  /**
    On any table that would take both, two creations with different ids and origins
    commute exactly when they do not record the same run: otherwise the dedup index keeps
    whichever came first.
  */
  lemma CreationsCommuteIff(t0: Table, a: Event, b: Event)
    requires a.body.HistoryCreated? && b.body.HistoryCreated? && a.device != "" && b.device != ""
    requires a.body.c.id != b.body.c.id && EventOrigin(a) != EventOrigin(b)
    requires !Conflicts(t0, EntryOf(a)) && !Conflicts(t0, EntryOf(b)) && a.body.c.id !in t0 && b.body.c.id !in t0
    ensures ApplyAll(t0, [a, b]).Applied? && ApplyAll(t0, [b, a]).Applied?
    ensures LiveView(ApplyAll(t0, [a, b]).table) == LiveView(ApplyAll(t0, [b, a]).table)
       <==> !RecordSameRun(a, b)
  {
    var ea, eb := EntryOf(a), EntryOf(b);
    SecondCreation(t0, a, b);
    SecondCreation(t0, b, a);
    if SameRun(ea, eb) {
      assert ea.id in LiveView(t0[ea.id := ea]) && ea.id !in LiveView(t0[eb.id := eb]);
    } else {
      SetSwap(t0, ea.id, ea, eb.id, eb);
    }
  }
}
