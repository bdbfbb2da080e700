/**
  What happens when two devices record the same run: the dedup index keeps whichever
  row comes first, until that row is tombstoned. Deliveries then agree exactly when no
  creation of such a run can either survive or be ignored.
*/
module DuplicateRuns {
  import opened Base
  import opened Merge
  import opened Convergence

  /** Two different creations of the same run, both new to the table. */
  ghost predicate Pair(t0: Table, s: set<Event>, a: Event, b: Event) {
    && a in s && b in s && a.body.HistoryCreated? && b.body.HistoryCreated? && a != b
    && RecordSameRun(a, b)
    && !HasOrigin(t0, EventOrigin(a)) && !HasOrigin(t0, EventOrigin(b))
  }

  ghost predicate RunTaken(t: Table, e: Entry) {
    exists id :: id in t && !t[id].deleted && SameRun(t[id], e)
  }

  ghost predicate IsNew(t0: Table, s: set<Event>, x: Event) {
    x in s && x.body.HistoryCreated? && !HasOrigin(t0, EventOrigin(x))
  }

  /** A live row of the table, or another new creation, records the run of `x`. */
  ghost predicate Challenged(t0: Table, s: set<Event>, x: Event)
    requires x.body.HistoryCreated?
  {
    RunTaken(t0, EntryOf(x)) || exists y :: Pair(t0, s, x, y)
  }

  /** The row is that of a new creation whose run something else records too. */
  ghost predicate Rivalled(t0: Table, s: set<Event>, r: Entry) {
    exists x :: IsNew(t0, s, x) && EntryOf(x) == r && Challenged(t0, s, x)
  }

  /** A live row of the table that no event deletes records the run of `r`. */
  ghost predicate Barred(t0: Table, s: set<Event>, r: Entry) {
    exists id :: id in t0 && !t0[id].deleted && SameRun(t0[id], r) && !Deleted(s, t0[id])
  }

  /**
    After the events `p` of `s`: known origins come from somewhere, tombstoned ones are
    known; live rows are expected, and expected rows without a rival are live; a new
    row whose run is taken for good is not.
  */
  ghost predicate Bounded(t0: Table, s: set<Event>, p: set<Event>, t: Table) {
    && (forall o :: HasOrigin(t, o) ==> HasOrigin(t0, o) || CreatedIn(p, o) || Tombstoned(p, o))
    && (forall o :: HasOrigin(t0, o) || Tombstoned(p, o) ==> HasOrigin(t, o))
    && (forall r :: LiveRow(t, r) ==> ExpectLive(t0, p, r))
    && (forall r :: ExpectLive(t0, p, r) && !Rivalled(t0, s, r) ==> LiveRow(t, r))
    && (forall r :: LiveRow(t, r) && NewRow(t0, s, r) ==> !Barred(t0, s, r))
  }

  /** A creation of a new origin is inserted unless a live row records its run. */
  lemma CreatedCases(t: Table, u: set<Event>, ev: Event)
    requires Fleet(u) && Tidy(t, u) && ev in u && ev.body.HistoryCreated? && !HasOrigin(t, EventOrigin(ev))
    ensures ev.body.c.id !in t
    ensures ApplyCreated(t, ev).0 == if RunTaken(t, EntryOf(ev)) then t else t[ev.body.c.id := EntryOf(ev)]
  {
    var e := EntryOf(ev);
    assert WellFormedEvent(ev) && OriginOf(e) == Some(EventOrigin(ev));
    assert Names(ev, e.id, EventOrigin(ev));
    assert e.id !in t;
    if RunTaken(t, e) {
      var id :| id in t && !t[id].deleted && SameRun(t[id], e);
      assert Collides(t[id], e);
    } else {
      forall id | id in t ensures !Collides(t[id], e) {
        assert OriginOf(t[id]) != Some(EventOrigin(ev));
      }
    }
  }

  /** If the run of a new creation is taken, it has a rival. */
  lemma TakenIsRivalled(t0: Table, s: set<Event>, p: set<Event>, t: Table, ev: Event)
    requires Fleet(s) && p <= s && ev in s && ev.body.HistoryCreated? && Tidy(t0, s) && Tidy(t, s)
    requires Bounded(t0, s, p, t) && !HasOrigin(t, EventOrigin(ev)) && RunTaken(t, EntryOf(ev))
    ensures Rivalled(t0, s, EntryOf(ev))
  {
    var e := EntryOf(ev);
    var id :| id in t && !t[id].deleted && SameRun(t[id], e);
    var q := t[id];
    assert LiveRow(t, q) && ExpectLive(t0, p, q);
    assert IsNew(t0, s, ev);
    if NewRow(t0, p, q) {
      var c :| c in p && c.body.HistoryCreated? && EntryOf(c) == q && !HasOrigin(t0, EventOrigin(c));
      assert WellFormedEvent(c) && OriginOf(q) == Some(EventOrigin(c));
      assert HasOrigin(t, EventOrigin(c));
      assert Pair(t0, s, ev, c);
    } else {
      assert RunTaken(t0, e);
    }
    assert Challenged(t0, s, ev);
  }

  /** A row of the table that no event deletes stays live. */
  lemma OldStays(t0: Table, s: set<Event>, p: set<Event>, t: Table, id: string)
    requires Fleet(s) && Tidy(t0, s) && p <= s && Bounded(t0, s, p, t)
    requires id in t0 && !t0[id].deleted && !Deleted(s, t0[id])
    ensures id in t && t[id] == t0[id]
  {
    var r := t0[id];
    assert ExpectLive(t0, p, r);
    forall x | x in s && x.body.HistoryCreated? && EntryOf(x) == r ensures !IsNew(t0, s, x) {
      assert WellFormedEvent(x) && OriginOf(r) == Some(EventOrigin(x));
      assert HasOrigin(t0, EventOrigin(x));
    }
    assert LiveRow(t, r);
  }

  lemma FreeIsNotBarred(t0: Table, s: set<Event>, p: set<Event>, t: Table, e: Entry)
    requires Fleet(s) && Tidy(t0, s) && p <= s && Bounded(t0, s, p, t) && !RunTaken(t, e)
    ensures !Barred(t0, s, e)
  {
    if Barred(t0, s, e) {
      var id :| id in t0 && !t0[id].deleted && SameRun(t0[id], e) && !Deleted(s, t0[id]);
      OldStays(t0, s, p, t, id);
    }
  }

  lemma CreatedBounded(t0: Table, s: set<Event>, p: set<Event>, t: Table, ev: Event)
    requires Fleet(s) && Tidy(t0, s) && p <= s && ev in s && ev.body.HistoryCreated?
    requires Tidy(t, s) && Bounded(t0, s, p, t)
    ensures Tidy(ApplyCreated(t, ev).0, s) && Bounded(t0, s, p + {ev}, ApplyCreated(t, ev).0)
  {
    var o := EventOrigin(ev);
    assert WellFormedEvent(ev);
    forall o' { MoreEvents(p, ev, o'); }
    if HasOrigin(t, o) {
      assert ApplyCreated(t, ev).0 == t;
      forall r { KnownOriginLive(t0, p, s, ev, r); }
    } else {
      CreatedCases(t, s, ev);
      if RunTaken(t, EntryOf(ev)) {
        TakenIsRivalled(t0, s, p, t, ev);
        IgnoredBounded(t0, s, p, t, ev);
      } else {
        CreatedTidy(t, s, ev);
        FreeIsNotBarred(t0, s, p, t, EntryOf(ev));
        InsertedBounded(t0, s, p, t, ev);
      }
    }
  }

  /** Only the creation's own row can become expected. */
  lemma ExpectAfterCreation(t0: Table, p: set<Event>, ev: Event, r: Entry)
    requires ev.body.HistoryCreated?
    ensures ExpectLive(t0, p, r) ==> ExpectLive(t0, p + {ev}, r)
    ensures ExpectLive(t0, p + {ev}, r) && r != EntryOf(ev) ==> ExpectLive(t0, p, r)
  {
    forall o { MoreEvents(p, ev, o); }
    if NewRow(t0, p, r) {
      var c :| c in p && c.body.HistoryCreated? && EntryOf(c) == r && !HasOrigin(t0, EventOrigin(c));
      assert c in p + {ev};
    }
  }

  lemma IgnoredBounded(t0: Table, s: set<Event>, p: set<Event>, t: Table, ev: Event)
    requires ev.body.HistoryCreated? && Bounded(t0, s, p, t) && Rivalled(t0, s, EntryOf(ev))
    ensures Bounded(t0, s, p + {ev}, t)
  {
    forall o { MoreEvents(p, ev, o); }
    forall r { ExpectAfterCreation(t0, p, ev, r); }
  }

  lemma InsertedBounded(t0: Table, s: set<Event>, p: set<Event>, t: Table, ev: Event)
    requires ev.body.HistoryCreated? && OriginOf(EntryOf(ev)) == Some(EventOrigin(ev)) && Bounded(t0, s, p, t)
    requires !HasOrigin(t, EventOrigin(ev)) && EntryOf(ev).id !in t && !Barred(t0, s, EntryOf(ev))
    ensures Bounded(t0, s, p + {ev}, t[EntryOf(ev).id := EntryOf(ev)])
  {
    var o, e := EventOrigin(ev), EntryOf(ev);
    var t' := t[e.id := e];
    forall o' { InsertOrigin(t, e, o'); }
    forall o' { MoreEvents(p, ev, o'); }
    forall r ensures LiveRow(t', r) ==> ExpectLive(t0, p + {ev}, r) {
      ExpectAfterCreation(t0, p, ev, r);
      if r == e {
        assert ev in p + {ev};
        assert NewRow(t0, p + {ev}, e);
      } else if LiveRow(t', r) {
        assert LiveRow(t, r);
      }
    }
    forall r ensures ExpectLive(t0, p + {ev}, r) && !Rivalled(t0, s, r) ==> LiveRow(t', r) {
      ExpectAfterCreation(t0, p, ev, r);
    }
  }

  lemma InsertOrigin(t: Table, e: Entry, o: Origin)
    requires e.id !in t
    ensures HasOrigin(t[e.id := e], o) <==> HasOrigin(t, o) || OriginOf(e) == Some(o)
  {
    var t' := t[e.id := e];
    if OriginOf(e) == Some(o) { assert OriginOf(t'[e.id]) == Some(o); }
    if HasOrigin(t, o) {
      var id :| id in t && OriginOf(t[id]) == Some(o);
      assert OriginOf(t'[id]) == Some(o);
    }
  }

  lemma DeleteOrigins(t: Table, o: Origin, o': Origin)
    ensures HasOrigin(DeleteByOrigin(t, o), o') <==> HasOrigin(t, o')
  {
    var t' := DeleteByOrigin(t, o);
    assert forall id :: id in t ==> OriginOf(t'[id]) == OriginOf(t[id]);
    if HasOrigin(t, o') {
      var id :| id in t && OriginOf(t[id]) == Some(o');
      assert id in t' && OriginOf(t'[id]) == Some(o');
    }
  }

  lemma TombstoneBounded(t0: Table, s: set<Event>, p: set<Event>, t: Table, ev: Event)
    requires Fleet(s) && ev in s && ev.body.HistoryTombstoned? && Tidy(t, s) && Bounded(t0, s, p, t)
    ensures Tidy(ApplyTombstone(t, ev.body.t).0, s) && Bounded(t0, s, p + {ev}, ApplyTombstone(t, ev.body.t).0)
  {
    var o := TombOrigin(ev.body.t);
    assert WellFormedEvent(ev);
    TombstoneStep(t, s, ev);
    if HasOrigin(t, o) {
      DeleteTidy(t, s, o);
      DeletedBounded(t0, s, p, t, ev);
    } else {
      var ph := if ev.body.t.historyId == "" then TombstoneId(o) else ev.body.t.historyId;
      PlaceholderTidy(t, s, ev, ph);
      HeldBounded(t0, s, p, t, ev, ph);
    }
  }

  lemma DeletedBounded(t0: Table, s: set<Event>, p: set<Event>, t: Table, ev: Event)
    requires ev.body.HistoryTombstoned? && Bounded(t0, s, p, t) && HasOrigin(t, TombOrigin(ev.body.t))
    ensures Bounded(t0, s, p + {ev}, DeleteByOrigin(t, TombOrigin(ev.body.t)))
  {
    var o := TombOrigin(ev.body.t);
    forall o' { MoreEvents(p, ev, o'); }
    forall o' { DeleteOrigins(t, o, o'); }
    forall r { ExpectAfterTombstone(t0, p, ev, r); }
    forall r ensures LiveRow(DeleteByOrigin(t, o), r) <==> LiveRow(t, r) && OriginOf(r) != Some(o) {
    }
  }

  lemma HeldBounded(t0: Table, s: set<Event>, p: set<Event>, t: Table, ev: Event, ph: string)
    requires ev.body.HistoryTombstoned? && CarriesOrigin(ev.body.t) && Bounded(t0, s, p, t)
    requires !HasOrigin(t, TombOrigin(ev.body.t)) && ph !in t
    ensures Bounded(t0, s, p + {ev}, t[ph := Placeholder(ph, TombOrigin(ev.body.t))])
  {
    var o := TombOrigin(ev.body.t);
    var t' := t[ph := Placeholder(ph, o)];
    forall o' { MoreEvents(p, ev, o'); }
    forall o' { InsertOrigin(t, Placeholder(ph, o), o'); }
    forall r { ExpectAfterTombstone(t0, p, ev, r); }
    forall r ensures LiveRow(t', r) <==> LiveRow(t, r) && OriginOf(r) != Some(o) {
    }
  }

  lemma DeleteTidy(t: Table, u: set<Event>, o: Origin)
    requires Tidy(t, u)
    ensures Tidy(DeleteByOrigin(t, o), u)
  {
    var t' := DeleteByOrigin(t, o);
    assert forall id :: id in t ==> OriginOf(t'[id]) == OriginOf(t[id]);
  }

  /** After any delivery of events of `s`. */
  lemma {:induction false} DeliveryBounded(t0: Table, s: set<Event>, evs: seq<Event>)
    requires Fleet(s) && Tidy(t0, s) && Elements(evs) <= s
    ensures ApplyAll(t0, evs).Applied?
    ensures Tidy(ApplyAll(t0, evs).table, s) && Bounded(t0, s, Elements(evs), ApplyAll(t0, evs).table)
    decreases |evs|
  {
    if evs != [] {
      var init, ev := evs[..|evs| - 1], evs[|evs| - 1];
      assert evs == init + [ev];
      assert Elements(evs) == Elements(init) + {ev};
      DeliveryBounded(t0, s, init);
      var t := ApplyAll(t0, init).table;
      assert ev in s && WellFormedEvent(ev);
      match ev.body
      case HistoryCreated(_) => CreatedBounded(t0, s, Elements(init), t, ev);
      case HistoryTombstoned(_) => TombstoneBounded(t0, s, Elements(init), t, ev);
      case DeviceMeta => OtherBounded(t0, s, Elements(init), t, ev);
      case CheckpointRef => OtherBounded(t0, s, Elements(init), t, ev);
    }
  }

  lemma OtherBounded(t0: Table, s: set<Event>, p: set<Event>, t: Table, ev: Event)
    requires Bounded(t0, s, p, t) && (ev.body.DeviceMeta? || ev.body.CheckpointRef?)
    ensures Bounded(t0, s, p + {ev}, t)
  {
    forall o { MoreEvents(p, ev, o); }
    forall r ensures ExpectLive(t0, p + {ev}, r) <==> ExpectLive(t0, p, r) {
      assert NewRow(t0, p + {ev}, r) <==> NewRow(t0, p, r);
    }
  }

  // ---- When all deliveries agree ----

  /** Any two deliveries of exactly these events end in the same live view. */
  ghost predicate AllAgree(t0: Table, s: set<Event>) {
    forall evs: seq<Event>, evs': seq<Event> :: Elements(evs) == s && Elements(evs') == s ==> SameView(t0, evs, evs')
  }

  ghost predicate SameView(t0: Table, evs: seq<Event>, evs': seq<Event>) {
    && ApplyAll(t0, evs).Applied? && ApplyAll(t0, evs').Applied?
    && LiveView(ApplyAll(t0, evs).table) == LiveView(ApplyAll(t0, evs').table)
  }

  /** `x` survives if it is inserted, can be inserted, and can also be ignored. */
  ghost predicate Contested(t0: Table, s: set<Event>, x: Event) {
    IsNew(t0, s, x) && !Tombstoned(s, EventOrigin(x)) && !Barred(t0, s, EntryOf(x)) && Challenged(t0, s, x)
  }

  ghost predicate NoContest(t0: Table, s: set<Event>) {
    forall x :: x in s ==> !Contested(t0, s, x)
  }

  /** Reference: the live rows after any delivery, if there is no contest. */
  lemma SettledLive(t0: Table, s: set<Event>, evs: seq<Event>, r: Entry)
    requires Fleet(s) && Tidy(t0, s) && Elements(evs) == s && NoContest(t0, s)
    ensures ApplyAll(t0, evs).Applied?
    ensures LiveRow(ApplyAll(t0, evs).table, r) <==> ExpectLive(t0, s, r) && !(NewRow(t0, s, r) && Barred(t0, s, r))
  {
    DeliveryBounded(t0, s, evs);
    if Rivalled(t0, s, r) {
      RivalledIsOut(t0, s, r);
    }
  }

  lemma RivalledIsOut(t0: Table, s: set<Event>, r: Entry)
    requires Fleet(s) && NoContest(t0, s) && Rivalled(t0, s, r)
    ensures NewRow(t0, s, r) && (Deleted(s, r) || Barred(t0, s, r))
  {
    var x :| IsNew(t0, s, x) && EntryOf(x) == r && Challenged(t0, s, x);
    assert WellFormedEvent(x) && !Contested(t0, s, x);
  }

  lemma SameRows(t: Table, t': Table)
    requires forall r :: LiveRow(t, r) <==> LiveRow(t', r)
    requires forall id :: id in t ==> t[id].id == id
    requires forall id :: id in t' ==> t'[id].id == id
    ensures LiveView(t) == LiveView(t')
  {
    forall id | id in t && !t[id].deleted ensures id in t' && !t'[id].deleted && t'[id] == t[id] {
      assert LiveRow(t, t[id]);
    }
    forall id | id in t' && !t'[id].deleted ensures id in t && !t[id].deleted {
      assert LiveRow(t', t'[id]);
    }
  }

  lemma SettledAgree(t0: Table, s: set<Event>, evs: seq<Event>, evs': seq<Event>)
    requires Fleet(s) && Tidy(t0, s) && NoContest(t0, s) && Elements(evs) == s && Elements(evs') == s
    ensures SameView(t0, evs, evs')
  {
    DeliveryBounded(t0, s, evs);
    DeliveryBounded(t0, s, evs');
    forall r ensures LiveRow(ApplyAll(t0, evs).table, r) <==> LiveRow(ApplyAll(t0, evs').table, r) {
      SettledLive(t0, s, evs, r);
      SettledLive(t0, s, evs', r);
    }
    SameRows(ApplyAll(t0, evs).table, ApplyAll(t0, evs').table);
  }

  // ---- When they do not ----

  lemma {:induction false} Listing(s: set<Event>) returns (evs: seq<Event>)
    ensures Elements(evs) == s
    decreases |s|
  {
    if s == {} {
      evs := [];
    } else {
      var ev :| ev in s;
      var rest := Listing(s - {ev});
      evs := rest + [ev];
      assert Elements(evs) == Elements(rest) + {ev};
    }
  }

  /** A live row stays live while nobody tombstones its origin. */
  lemma {:induction false} LiveStays(t0: Table, s: set<Event>, first: seq<Event>, evs: seq<Event>, r: Entry)
    requires Fleet(s) && Tidy(t0, s) && Elements(first + evs) <= s
    requires ApplyAll(t0, first).Applied? && LiveRow(ApplyAll(t0, first).table, r)
    requires OriginOf(r).Some? && !Tombstoned(s, OriginOf(r).value)
    ensures ApplyAll(t0, first + evs).Applied? && LiveRow(ApplyAll(t0, first + evs).table, r)
    decreases |evs|
  {
    if evs == [] {
      assert first + evs == first;
    } else {
      var init, ev := evs[..|evs| - 1], evs[|evs| - 1];
      assert (first + evs)[..|first + evs| - 1] == first + init;
      assert first + evs == (first + init) + [ev];
      assert Elements(first + init) <= Elements(first + evs) && ev in Elements(first + evs);
      LiveStays(t0, s, first, init, r);
      DeliveryBounded(t0, s, first + init);
      LiveStaysOnce(ApplyAll(t0, first + init).table, s, ev, r);
    }
  }

  lemma LiveStaysOnce(t: Table, s: set<Event>, ev: Event, r: Entry)
    requires Fleet(s) && Tidy(t, s) && ev in s && LiveRow(t, r)
    requires OriginOf(r).Some? && !Tombstoned(s, OriginOf(r).value)
    ensures ApplyTracked(t, ev).Applied? && LiveRow(ApplyTracked(t, ev).table, r)
  {
    assert WellFormedEvent(ev);
    match ev.body
    case HistoryCreated(_) =>
      if !HasOrigin(t, EventOrigin(ev)) { CreatedCases(t, s, ev); }
    case HistoryTombstoned(_) => TombstoneStep(t, s, ev);
    case _ =>
  }

  /** An origin that is not there stays away while nobody creates or tombstones it. */
  lemma {:induction false} OriginStaysAway(t0: Table, s: set<Event>, first: seq<Event>, evs: seq<Event>, o: Origin)
    requires Fleet(s) && Tidy(t0, s) && Elements(first + evs) <= s
    requires ApplyAll(t0, first).Applied? && !HasOrigin(ApplyAll(t0, first).table, o)
    requires !CreatedIn(Elements(evs), o) && !Tombstoned(s, o)
    ensures ApplyAll(t0, first + evs).Applied? && !HasOrigin(ApplyAll(t0, first + evs).table, o)
    decreases |evs|
  {
    if evs == [] {
      assert first + evs == first;
    } else {
      var init, ev := evs[..|evs| - 1], evs[|evs| - 1];
      assert (first + evs)[..|first + evs| - 1] == first + init;
      assert first + evs == (first + init) + [ev];
      assert Elements(first + init) <= Elements(first + evs) && ev in Elements(first + evs);
      assert Elements(init) <= Elements(evs) && ev in Elements(evs);
      OriginStaysAway(t0, s, first, init, o);
      DeliveryBounded(t0, s, first + init);
      AwayOnce(ApplyAll(t0, first + init).table, s, ev, o);
    }
  }

  lemma AwayOnce(t: Table, s: set<Event>, ev: Event, o: Origin)
    requires Fleet(s) && Tidy(t, s) && ev in s && !HasOrigin(t, o) && !Tombstoned(s, o)
    requires ev.body.HistoryCreated? ==> EventOrigin(ev) != o
    ensures ApplyTracked(t, ev).Applied? && !HasOrigin(ApplyTracked(t, ev).table, o)
  {
    assert WellFormedEvent(ev);
    match ev.body
    case HistoryCreated(_) =>
      if !HasOrigin(t, EventOrigin(ev)) {
        CreatedCases(t, s, ev);
        InsertOrigin(t, EntryOf(ev), o);
      }
    case HistoryTombstoned(p) =>
      TombstoneStep(t, s, ev);
      DeleteOrigins(t, TombOrigin(p), o);
      if !HasOrigin(t, TombOrigin(p)) {
        InsertOrigin(t, Placeholder(if p.historyId == "" then TombstoneId(TombOrigin(p)) else p.historyId, TombOrigin(p)), o);
      }
    case _ =>
  }

  lemma ApplySnoc(t0: Table, evs: seq<Event>, ev: Event)
    requires ApplyAll(t0, evs).Applied? && ApplyTracked(ApplyAll(t0, evs).table, ev).Applied?
    ensures ApplyAll(t0, evs + [ev]).Applied?
    ensures ApplyAll(t0, evs + [ev]).table == ApplyTracked(ApplyAll(t0, evs).table, ev).table
  {
    assert (evs + [ev])[..|evs|] == evs;
  }

  /** A creation that comes when its run is free is inserted. */
  lemma FreeIsInserted(t0: Table, s: set<Event>, evs: seq<Event>, x: Event)
    requires Fleet(s) && Tidy(t0, s) && Elements(evs) <= s && x in s && x.body.HistoryCreated?
    requires ApplyAll(t0, evs).Applied?
    requires !HasOrigin(ApplyAll(t0, evs).table, EventOrigin(x)) && !RunTaken(ApplyAll(t0, evs).table, EntryOf(x))
    ensures ApplyAll(t0, evs + [x]).Applied? && LiveRow(ApplyAll(t0, evs + [x]).table, EntryOf(x))
  {
    DeliveryBounded(t0, s, evs);
    assert WellFormedEvent(x);
    CreatedCases(ApplyAll(t0, evs).table, s, x);
    ApplySnoc(t0, evs, x);
  }

  /** One that comes when its run is taken is ignored, and its origin stays unknown. */
  lemma TakenIsIgnored(t0: Table, s: set<Event>, evs: seq<Event>, x: Event)
    requires Fleet(s) && Tidy(t0, s) && Elements(evs) <= s && x in s && x.body.HistoryCreated?
    requires ApplyAll(t0, evs).Applied?
    requires !HasOrigin(ApplyAll(t0, evs).table, EventOrigin(x)) && RunTaken(ApplyAll(t0, evs).table, EntryOf(x))
    ensures ApplyAll(t0, evs + [x]).Applied? && !HasOrigin(ApplyAll(t0, evs + [x]).table, EventOrigin(x))
  {
    DeliveryBounded(t0, s, evs);
    assert WellFormedEvent(x);
    CreatedCases(ApplyAll(t0, evs).table, s, x);
    ApplySnoc(t0, evs, x);
  }

  function Others(s: set<Event>): set<Event> {
    set ev | ev in s && !ev.body.HistoryCreated?
  }

  lemma DeletedByOthers(s: set<Event>, r: Entry)
    requires Deleted(s, r)
    ensures Deleted(Others(s), r)
  {
    var ev :| ev in s && ev.body.HistoryTombstoned? && TombOrigin(ev.body.t) == OriginOf(r).value;
    assert ev in Others(s);
  }

  /** After all the tombstones, a run that is not taken for good is free. */
  lemma TombstonesFree(t0: Table, s: set<Event>, evs: seq<Event>, x: Event)
    requires Fleet(s) && Tidy(t0, s) && Elements(evs) == Others(s) && Contested(t0, s, x)
    ensures ApplyAll(t0, evs).Applied?
    ensures !HasOrigin(ApplyAll(t0, evs).table, EventOrigin(x)) && !RunTaken(ApplyAll(t0, evs).table, EntryOf(x))
  {
    DeliveryBounded(t0, s, evs);
    var t, p := ApplyAll(t0, evs).table, Others(s);
    forall id | id in t && !t[id].deleted ensures !SameRun(t[id], EntryOf(x)) {
      assert LiveRow(t, t[id]) && ExpectLive(t0, p, t[id]) && !NewRow(t0, p, t[id]);
      if Deleted(s, t[id]) { DeletedByOthers(s, t[id]); }
    }
  }

  /** One order of the events in which `x` is live at the end. */
  lemma ComesLast(t0: Table, s: set<Event>, x: Event) returns (evs: seq<Event>)
    requires Fleet(s) && Tidy(t0, s) && Contested(t0, s, x)
    ensures Elements(evs) == s && ApplyAll(t0, evs).Applied? && LiveRow(ApplyAll(t0, evs).table, EntryOf(x))
  {
    var others := Listing(Others(s));
    var all := Listing(s);
    assert WellFormedEvent(x);
    TombstonesFree(t0, s, others, x);
    FreeIsInserted(t0, s, others, x);
    evs := (others + [x]) + all;
    assert Elements(evs) == Elements(others) + {x} + Elements(all);
    LiveStays(t0, s, others + [x], all, EntryOf(x));
  }

  lemma OnlyCreation(s: set<Event>, x: Event)
    requires Fleet(s) && x in s && x.body.HistoryCreated?
    ensures !CreatedIn(s - {x}, EventOrigin(x))
  {
  }

  /** One order in which it comes when its run is taken, and is not there at the end. */
  lemma ComesTooEarly(t0: Table, s: set<Event>, first: seq<Event>, x: Event) returns (evs: seq<Event>)
    requires Fleet(s) && Tidy(t0, s) && Contested(t0, s, x) && Elements(first) <= s && ApplyAll(t0, first).Applied?
    requires !HasOrigin(ApplyAll(t0, first).table, EventOrigin(x)) && RunTaken(ApplyAll(t0, first).table, EntryOf(x))
    ensures Elements(evs) == s && ApplyAll(t0, evs).Applied? && !HasOrigin(ApplyAll(t0, evs).table, EventOrigin(x))
  {
    var rest := Listing(s - {x});
    evs := (first + [x]) + rest;
    assert Elements(evs) == Elements(first) + {x} + Elements(rest);
    TakenIsIgnored(t0, s, first, x);
    OnlyCreation(s, x);
    OriginStaysAway(t0, s, first + [x], rest, EventOrigin(x));
  }

  /** The run of a challenged creation is taken at once, or after its partner. */
  lemma Occupied(t0: Table, s: set<Event>, x: Event) returns (first: seq<Event>)
    requires Fleet(s) && Tidy(t0, s) && Contested(t0, s, x)
    ensures Elements(first) <= s && ApplyAll(t0, first).Applied?
    ensures !HasOrigin(ApplyAll(t0, first).table, EventOrigin(x)) && RunTaken(ApplyAll(t0, first).table, EntryOf(x))
  {
    first := [];
    if !RunTaken(t0, EntryOf(x)) {
      var y :| Pair(t0, s, x, y);
      first := [y];
      SameRunTaken(t0, EntryOf(x), EntryOf(y));
      assert [] + [y] == first && Elements([]) == {};
      FreeIsInserted(t0, s, [], y);
      DeliveryBounded(t0, s, first);
      assert RunTaken(ApplyAll(t0, first).table, EntryOf(x));
      PartnerAway(t0, s, x, y);
    }
  }

  lemma SameRunTaken(t: Table, a: Entry, b: Entry)
    requires SameRun(a, b) && !RunTaken(t, a)
    ensures !RunTaken(t, b)
  {
  }

  lemma PartnerAway(t0: Table, s: set<Event>, x: Event, y: Event)
    requires Fleet(s) && Tidy(t0, s) && Pair(t0, s, x, y) && !Tombstoned(s, EventOrigin(x))
    requires ApplyAll(t0, [y]).Applied?
    ensures !HasOrigin(ApplyAll(t0, [y]).table, EventOrigin(x))
  {
    assert Elements([y]) == {y};
    DeliveryBounded(t0, s, [y]);
  }

  lemma NoOriginNoRow(t: Table, r: Entry, o: Origin)
    requires !HasOrigin(t, o) && OriginOf(r) == Some(o)
    ensures !(r.id in LiveView(t) && LiveView(t)[r.id] == r)
  {
  }

  /** A contested creation shows in two orders. */
  lemma ContestDisagrees(t0: Table, s: set<Event>, x: Event)
    requires Fleet(s) && Tidy(t0, s) && Contested(t0, s, x)
    ensures !AllAgree(t0, s)
  {
    assert WellFormedEvent(x);
    var evs := ComesLast(t0, s, x);
    var first := Occupied(t0, s, x);
    var evs' := ComesTooEarly(t0, s, first, x);
    NoOriginNoRow(ApplyAll(t0, evs').table, EntryOf(x), EventOrigin(x));
    assert EntryOf(x).id in LiveView(ApplyAll(t0, evs).table);
    assert !SameView(t0, evs, evs');
  }

  /**
    All deliveries of a set of events agree if and only if every new creation whose
    run something else records too is tombstoned, or is kept out for good by a live
    row that no event deletes.
  */
  lemma DeliveriesAgreeIff(t0: Table, s: set<Event>)
    requires Fleet(s) && Tidy(t0, s)
    ensures AllAgree(t0, s) <==> NoContest(t0, s)
  {
    if NoContest(t0, s) {
      forall evs: seq<Event>, evs': seq<Event> | Elements(evs) == s && Elements(evs') == s ensures SameView(t0, evs, evs') {
        SettledAgree(t0, s, evs, evs');
      }
    } else {
      var x :| x in s && Contested(t0, s, x);
      ContestDisagrees(t0, s, x);
    }
  }

  /** Both creations of each pair are tombstoned. */
  ghost predicate PairsGone(t0: Table, s: set<Event>) {
    forall a, b :: Pair(t0, s, a, b) ==> Tombstoned(s, EventOrigin(a)) && Tombstoned(s, EventOrigin(b))
  }

  /** On a table that records none of the new runs: both creations of each pair are tombstoned. */
  lemma PairsDecide(t0: Table, s: set<Event>)
    requires Fleet(s) && Consistent(t0, s)
    ensures AllAgree(t0, s) <==> PairsGone(t0, s)
  {
    DeliveriesAgreeIff(t0, s);
    forall x | x in s ensures Contested(t0, s, x) <==> !Tombstoned(s, EventOrigin(x)) && exists y :: Pair(t0, s, x, y) {
      if IsNew(t0, s, x) { NotTaken(t0, s, x); }
    }
    if NoContest(t0, s) {
      forall a, b | Pair(t0, s, a, b) ensures Tombstoned(s, EventOrigin(a)) && Tombstoned(s, EventOrigin(b)) {
        assert Pair(t0, s, b, a);
      }
    }
  }

  lemma NotTaken(t0: Table, s: set<Event>, x: Event)
    requires RunsOwned(t0, s) && IsNew(t0, s, x)
    ensures !RunTaken(t0, EntryOf(x)) && !Barred(t0, s, EntryOf(x))
  {
  }
}
