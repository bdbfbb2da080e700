/**
  The RAM cache follows the table: the change set of a merge, applied to a cache that
  agreed with the live rows before, makes it agree with the live rows after, or dirty.
*/
module MergeCache {
  import opened Base
  import opened Merge
  import opened Convergence
  import opened CacheSpec

  /** The command of every row that has one. */
  function Commands(rows: Table): map<string, string> {
    map id | id in rows && rows[id].command != "" :: rows[id].command
  }

  /** The live rows that run a command. */
  function RunsOf(t: Table, command: string): set<string> {
    set id | id in t && !t[id].deleted && t[id].command == command
  }

  ghost predicate Agrees(v: View, t: Table) {
    Knows(v, LiveView(t))
  }

  /** Agreement in the table's own terms. */
  lemma AgreesMeans(v: View, t: Table, command: string)
    requires Agrees(v, t) && command != ""
    ensures command in v.recs <==> RunsOf(t, command) != {}
    ensures command in v.recs ==> v.recs[command].freq == |RunsOf(t, command)|
    ensures forall id :: id in v.ids <==> id in t && !t[id].deleted && t[id].command != ""
  {
    assert IdsOf(v.ids, command) == RunsOf(t, command);
    if id :| id in RunsOf(t, command) {
      assert v.ids[id] == command;
    }
  }

  // ---- Exact counts ----

  /** Every command on record counts exactly the ids that belong to it. */
  ghost predicate Exact(v: View) {
    && (forall id :: id in v.ids ==> v.ids[id] in v.recs)
    && (forall c :: c in v.recs ==> v.recs[c].freq >= 1 && v.recs[c].freq == |IdsOf(v.ids, c)|)
  }

  lemma CreateExact(v: View, e: Entry)
    requires Exact(v) && e.id !in v.ids
    ensures Exact(Create(v, e))
  {
    if !e.deleted && e.command != "" {
      var v' := Create(v, e);
      forall c | c in v'.recs ensures v'.recs[c].freq >= 1 && v'.recs[c].freq == |IdsOf(v'.ids, c)| {
        IdsAfterSet(v.ids, e.id, e.command, c);
        if c == e.command && c !in v.recs {
          assert IdsOf(v.ids, c) == {};
        }
        assert e.id !in IdsOf(v.ids, c);
        if c != e.command {
          assert IdsOf(v.ids, c) - {e.id} == IdsOf(v.ids, c);
        }
      }
    }
  }

  lemma BuryExact(v: View, id: string)
    requires Exact(v)
    ensures Exact(Bury(v, id))
  {
    if id in v.ids {
      var v', gone := Bury(v, id), v.ids[id];
      assert id in IdsOf(v.ids, gone);
      forall c | c in v'.recs ensures v'.recs[c].freq >= 1 && v'.recs[c].freq == |IdsOf(v'.ids, c)| {
        IdsAfterDrop(v.ids, id, c);
        if c != gone {
          assert IdsOf(v.ids, c) - {id} == IdsOf(v.ids, c);
        }
      }
      forall id' | id' in v'.ids ensures v'.ids[id'] in v'.recs {
        if v'.ids[id'] == gone && v.recs[gone].freq - 1 <= 0 {
          SubsetSize({id, id'}, IdsOf(v.ids, gone));
        }
      }
    }
  }

  // ---- What a batch does to the ids ----

  function IdSet(ids: seq<string>): set<string> {
    set id | id in ids
  }

  function Overlay(rows: Table, es: seq<Entry>): Table {
    if es == [] then rows else Overlay(rows, es[..|es| - 1])[es[|es| - 1].id := es[|es| - 1]]
  }

  /** Each entry is live and its id is new when it comes. */
  ghost predicate FreshIn(rows: Table, es: seq<Entry>) {
    es == [] || (var init, e := es[..|es| - 1], es[|es| - 1];
                 FreshIn(rows, init) && e.id !in Overlay(rows, init) && !e.deleted)
  }

  lemma OverlaySnoc(rows: Table, es: seq<Entry>, e: Entry)
    ensures Overlay(rows, es + [e]) == Overlay(rows, es)[e.id := e]
  {
    assert (es + [e])[..|es|] == es;
  }

  lemma FreshSnoc(rows: Table, es: seq<Entry>, e: Entry)
    requires FreshIn(rows, es) && e.id !in Overlay(rows, es) && !e.deleted
    ensures FreshIn(rows, es + [e])
  {
    assert (es + [e])[..|es|] == es;
  }

  /** The view is exact and knows the commands of these rows. */
  ghost predicate Knows(v: View, rows: Table) {
    v.ids == Commands(rows) && Exact(v)
  }

  lemma CreateKnows(v: View, rows: Table, e: Entry)
    requires Knows(v, rows) && e.id !in rows && !e.deleted
    ensures Knows(Create(v, e), rows[e.id := e])
  {
    CreateExact(v, e);
  }

  lemma {:induction false} CreateAllKnows(v: View, rows: Table, es: seq<Entry>)
    requires Knows(v, rows) && FreshIn(rows, es)
    ensures Knows(CreateAll(v, es), Overlay(rows, es))
    decreases |es|
  {
    if es != [] {
      var init, e := es[..|es| - 1], es[|es| - 1];
      CreateAllKnows(v, rows, init);
      CreateKnows(CreateAll(v, init), Overlay(rows, init), e);
    }
  }

  lemma BuryKnows(v: View, rows: Table, id: string)
    requires Knows(v, rows)
    ensures Knows(Bury(v, id), rows - {id})
  {
    BuryExact(v, id);
  }

  lemma MinusSnoc(rows: Table, ids: seq<string>, id: string)
    ensures rows - IdSet(ids + [id]) == rows - IdSet(ids) - {id}
  {
    assert IdSet(ids + [id]) == IdSet(ids) + {id};
  }

  lemma {:induction false} BuryAllKnows(v: View, rows: Table, ids: seq<string>)
    requires Knows(v, rows)
    ensures Knows(BuryAll(v, ids), rows - IdSet(ids))
    decreases |ids|
  {
    if ids == [] {
      assert rows - IdSet(ids) == rows;
    } else {
      var init, id := ids[..|ids| - 1], ids[|ids| - 1];
      assert ids == init + [id];
      BuryAllKnows(v, rows, init);
      BuryKnows(BuryAll(v, init), rows - IdSet(init), id);
      MinusSnoc(rows, init, id);
    }
  }

  predicate NoRepeats(ids: seq<string>) {
    forall i, j :: 0 <= i < j < |ids| ==> ids[i] != ids[j]
  }

  lemma {:induction false} BuriedIds(v: View, ids: seq<string>)
    ensures BuryAll(v, ids).ids.Keys == v.ids.Keys - IdSet(ids)
    decreases |ids|
  {
    if ids != [] {
      var init, id := ids[..|ids| - 1], ids[|ids| - 1];
      assert ids == init + [id];
      assert IdSet(ids) == IdSet(init) + {id};
      BuriedIds(v, init);
    }
  }

  /** A clean cache stays clean exactly when every tombstoned id is known and comes once. */
  lemma {:induction false} CleanIff(v: View, ids: seq<string>)
    ensures BuryAll(v, ids).dirty <==> v.dirty || !NoRepeats(ids) || !(IdSet(ids) <= v.ids.Keys)
    decreases |ids|
  {
    if ids != [] {
      var init, id := ids[..|ids| - 1], ids[|ids| - 1];
      assert ids == init + [id];
      CleanIff(v, init);
      BuriedIds(v, init);
      assert IdSet(ids) == IdSet(init) + {id};
      RepeatsSnoc(init, id);
    }
  }

  lemma RepeatsSnoc(ids: seq<string>, id: string)
    ensures NoRepeats(ids + [id]) <==> NoRepeats(ids) && id !in ids
  {
    if NoRepeats(ids + [id]) {
      assert forall i :: 0 <= i < |ids| ==> (ids + [id])[i] == ids[i];
      assert (ids + [id])[|ids|] == id;
    }
  }

  // ---- What a delivery does to the live rows ----

  /** A tombstoned id that the cache cannot know. */
  ghost predicate Lost(rows: Table, ids: seq<string>) {
    exists id :: id in ids && id !in rows
  }

  /** The creations that could still bring a tombstoned id are those whose origin is taken. */
  ghost predicate Settled(u: set<Event>, t: Table, ids: seq<string>) {
    forall ev :: ev in u && ev.body.HistoryCreated? && ev.body.c.id in ids ==> HasOrigin(t, EventOrigin(ev))
  }

  ghost predicate Follows(t0: Table, u: set<Event>, t: Table, cs: ChangeSet) {
    && cs.completed == [] && cs.commands == []
    && FreshIn(LiveView(t0), cs.created)
    && Settled(u, t, cs.tombstoned)
    && Overlay(LiveView(t0), cs.created).Keys <= t.Keys
    && (Lost(Overlay(LiveView(t0), cs.created), cs.tombstoned)
        || LiveView(t) == Overlay(LiveView(t0), cs.created) - IdSet(cs.tombstoned))
  }

  lemma FollowsStart(t0: Table, u: set<Event>)
    ensures Follows(t0, u, t0, NO_CHANGES)
  {
  }

  lemma CreatedFollows(t0: Table, u: set<Event>, t: Table, cs: ChangeSet, ev: Event, e: Entry)
    requires Follows(t0, u, t, cs) && ev in u && ev.body.HistoryCreated? && e == EntryOf(ev)
    requires !HasOrigin(t, EventOrigin(ev)) && e.id !in t
    requires Settled(u, t[e.id := e], cs.tombstoned)
    ensures Follows(t0, u, t[e.id := e], cs.(created := cs.created + [e]))
  {
    var rows := Overlay(LiveView(t0), cs.created);
    OverlaySnoc(LiveView(t0), cs.created, e);
    FreshSnoc(LiveView(t0), cs.created, e);
    assert e.id !in cs.tombstoned;
    if Lost(rows, cs.tombstoned) {
      LostInsert(rows, e, cs.tombstoned);
    } else {
      LiveInsert(t, e);
      MinusInsert(rows, e, cs.tombstoned);
    }
  }

  lemma LiveInsert(t: Table, e: Entry)
    requires !e.deleted && e.id !in t
    ensures LiveView(t[e.id := e]) == LiveView(t)[e.id := e]
  {
  }

  lemma MinusInsert(rows: Table, e: Entry, ids: seq<string>)
    requires e.id !in ids
    ensures (rows - IdSet(ids))[e.id := e] == rows[e.id := e] - IdSet(ids)
  {
  }

  lemma LostInsert(rows: Table, e: Entry, ids: seq<string>)
    requires e.id !in ids && Lost(rows, ids)
    ensures Lost(rows[e.id := e], ids)
  {
    var id :| id in ids && id !in rows;
    assert id !in rows[e.id := e];
  }

  lemma LostStays(rows: Table, ids: seq<string>, more: seq<string>)
    requires Lost(rows, ids) || Lost(rows, more)
    ensures Lost(rows, ids + more)
  {
    if Lost(rows, ids) {
      var id :| id in ids && id !in rows;
      assert id in ids + more;
    } else {
      var id :| id in more && id !in rows;
      assert id in ids + more;
    }
  }

  /** A tombstone whose id is not in the table is news to the cache. */
  lemma StrangeFollows(t0: Table, u: set<Event>, t: Table, cs: ChangeSet, t': Table, ids: seq<string>)
    requires Follows(t0, u, t, cs) && t.Keys <= t'.Keys && Settled(u, t', cs.tombstoned + ids)
    requires ids != [] && ids[0] !in t
    ensures Follows(t0, u, t', cs.(tombstoned := cs.tombstoned + ids))
  {
    var rows := Overlay(LiveView(t0), cs.created);
    assert ids[0] !in rows;
    assert Lost(rows, ids);
    LostStays(rows, cs.tombstoned, ids);
  }

  lemma DeleteOne(t: Table, u: set<Event>, o: Origin, id: string)
    requires Consistent(t, u) && id in t && OriginOf(t[id]) == Some(o)
    ensures LiveView(DeleteByOrigin(t, o)) == LiveView(t) - {id}
  {
  }

  lemma KnownFollows(t0: Table, u: set<Event>, t: Table, cs: ChangeSet, o: Origin, id: string)
    requires Follows(t0, u, t, cs) && Consistent(t, u) && id in t && OriginOf(t[id]) == Some(o)
    requires Settled(u, DeleteByOrigin(t, o), cs.tombstoned + [id])
    ensures Follows(t0, u, DeleteByOrigin(t, o), cs.(tombstoned := cs.tombstoned + [id]))
  {
    var rows := Overlay(LiveView(t0), cs.created);
    DeleteOne(t, u, o, id);
    if Lost(rows, cs.tombstoned) {
      LostStays(rows, cs.tombstoned, [id]);
    } else {
      MinusSnoc(rows, cs.tombstoned, id);
    }
  }

  lemma OriginsStay(t: Table, t': Table, o: Origin)
    requires forall id :: id in t ==> id in t' && OriginOf(t'[id]) == OriginOf(t[id])
    ensures HasOrigin(t, o) ==> HasOrigin(t', o)
  {
    if HasOrigin(t, o) {
      var id :| id in t && OriginOf(t[id]) == Some(o);
      assert id in t' && OriginOf(t'[id]) == Some(o);
    }
  }

  /** The ids a tombstone reports: creations that carry one of them have its origin. */
  lemma ReportedIds(u: set<Event>, t: Table, ev: Event, c: Event)
    requires WellFormed(u) && ev in u && ev.body.HistoryTombstoned? && c in u && c.body.HistoryCreated?
    requires c.body.c.id in ApplyTombstone(t, ev.body.t).1
    ensures EventOrigin(c) == TombOrigin(ev.body.t)
  {
    var o := TombOrigin(ev.body.t);
    assert WellFormedEvent(c);
    assert "tombstone:" <= TombstoneId(o) && "origin:" <= OriginId(o);
    assert Names(c, c.body.c.id, EventOrigin(c)) && Names(ev, c.body.c.id, o);
  }

  lemma TombstoneSettles(u: set<Event>, t: Table, t': Table, ids: seq<string>, ev: Event)
    requires WellFormed(u) && ev in u && ev.body.HistoryTombstoned? && Settled(u, t, ids)
    requires forall id :: id in t ==> id in t' && OriginOf(t'[id]) == OriginOf(t[id])
    requires HasOrigin(t', TombOrigin(ev.body.t))
    ensures Settled(u, t', ids + ApplyTombstone(t, ev.body.t).1)
  {
    forall c | c in u && c.body.HistoryCreated? && c.body.c.id in ids + ApplyTombstone(t, ev.body.t).1
      ensures HasOrigin(t', EventOrigin(c))
    {
      if c.body.c.id in ids {
        OriginsStay(t, t', EventOrigin(c));
      } else {
        ReportedIds(u, t, ev, c);
      }
    }
  }

  lemma DifferentIds(a: Origin, b: Origin)
    ensures OriginId(a) != TombstoneId(b)
  {
    assert OriginId(a)[0] == 'o' && TombstoneId(b)[0] == 't';
  }

  /** Which ids a tombstone reports. */
  lemma TombstoneReports(t: Table, u: set<Event>, ev: Event)
    requires WellFormed(u) && Consistent(t, u) && ev in u && ev.body.HistoryTombstoned?
    ensures var p, o, ids := ev.body.t, TombOrigin(ev.body.t), ApplyTombstone(t, ev.body.t).1;
            && ids != []
            && (!HasOrigin(t, o) ==> ids[0] !in t)
            && (HasOrigin(t, o) && ids[0] in t ==> OriginOf(t[ids[0]]) == Some(o) && ids == [ids[0]])
  {
    var p, o := ev.body.t, TombOrigin(ev.body.t);
    assert WellFormedEvent(ev);
    if p.historyId != "" {
      assert Names(ev, p.historyId, o);
      var t1 := DeleteById(t, p.historyId);
      assert forall id :: id in t ==> OriginOf(t1[id]) == OriginOf(t[id]);
      assert HasOrigin(t1, o) == HasOrigin(t, o);
    } else {
      assert Reserved(TombstoneId(o)) by { assert "tombstone:" <= TombstoneId(o); }
      assert Reserved(OriginId(o)) by { assert "origin:" <= OriginId(o); }
      if TombstoneId(o) in t {
        TombstoneIdInjective(o, OriginOf(t[TombstoneId(o)]).value);
      }
      forall o' { DifferentIds(o, o'); }
    }
  }

  lemma TombstoneFollows(t0: Table, u: set<Event>, t: Table, cs: ChangeSet, ev: Event)
    requires WellFormed(u) && Consistent(t, u) && ev in u && ev.body.HistoryTombstoned? && Follows(t0, u, t, cs)
    ensures var (t', ids) := ApplyTombstone(t, ev.body.t);
            Follows(t0, u, t', cs.(tombstoned := cs.tombstoned + ids))
  {
    var o := TombOrigin(ev.body.t);
    var (t', ids) := ApplyTombstone(t, ev.body.t);
    TombstoneStep(t, u, ev);
    TombstoneReports(t, u, ev);
    TombstoneOrigins(t, u, ev);
    TombstoneSettles(u, t, t', cs.tombstoned, ev);
    if HasOrigin(t, o) && ids[0] in t {
      KnownFollows(t0, u, t, cs, o, ids[0]);
    } else {
      StrangeFollows(t0, u, t, cs, t', ids);
    }
  }

  lemma TombstoneOrigins(t: Table, u: set<Event>, ev: Event)
    requires WellFormed(u) && Consistent(t, u) && ev in u && ev.body.HistoryTombstoned?
    ensures var t' := ApplyTombstone(t, ev.body.t).0;
            && (forall id :: id in t ==> id in t' && OriginOf(t'[id]) == OriginOf(t[id]))
            && HasOrigin(t', TombOrigin(ev.body.t))
  {
    var o := TombOrigin(ev.body.t);
    var t' := ApplyTombstone(t, ev.body.t).0;
    TombstoneStep(t, u, ev);
    if HasOrigin(t, o) {
      OriginsStay(t, t', o);
    } else {
      assert WellFormedEvent(ev);
      var ph := if ev.body.t.historyId == "" then TombstoneId(o) else ev.body.t.historyId;
      assert ph in t' && OriginOf(t'[ph]) == Some(o);
    }
  }

  /** After any delivery the live rows are the old ones and the created ones less the tombstoned ones, or an id is lost. */
  lemma {:induction false} DeliveryFollows(t0: Table, u: set<Event>, evs: seq<Event>)
    requires WellFormed(u) && Consistent(t0, u) && Elements(evs) <= u
    ensures ApplyAll(t0, evs).Applied?
    ensures Follows(t0, u, ApplyAll(t0, evs).table, ApplyAll(t0, evs).changes)
    decreases |evs|
  {
    if evs == [] {
      FollowsStart(t0, u);
    } else {
      var init, ev := evs[..|evs| - 1], evs[|evs| - 1];
      assert evs == init + [ev];
      assert Elements(init) <= u && ev in Elements(evs);
      DeliveryFollows(t0, u, init);
      DeliveryRepresents(t0, u, init);
      DeliveryRepresents(t0, u, evs);
      StepFollows(t0, u, ApplyAll(t0, init).table, ApplyAll(t0, init).changes, ev);
    }
  }

  lemma StepFollows(t0: Table, u: set<Event>, t: Table, cs: ChangeSet, ev: Event)
    requires WellFormed(u) && Consistent(t, u) && ev in u && Follows(t0, u, t, cs)
    requires ApplyTracked(t, ev).Applied?
    ensures Follows(t0, u, ApplyTracked(t, ev).table, MergeChanges(cs, ApplyTracked(t, ev).changes))
  {
    assert MergeChanges(cs, NO_CHANGES) == cs;
    match ev.body
    case HistoryCreated(_) =>
      CreatedStep(t, u, ev);
      if !HasOrigin(t, EventOrigin(ev)) {
        var e := EntryOf(ev);
        assert WellFormedEvent(ev);
        forall o { OriginsStay(t, t[e.id := e], o); }
        CreatedFollows(t0, u, t, cs, ev, e);
        assert MergeChanges(cs, CreatedChange(Some(e))) == cs.(created := cs.created + [e]);
      }
    case HistoryTombstoned(p) =>
      TombstoneFollows(t0, u, t, cs, ev);
      var ids := ApplyTombstone(t, p).1;
      assert MergeChanges(cs, TombstonedChange(ids)) == cs.(tombstoned := cs.tombstoned + ids);
    case _ =>
  }

  // ---- When the cache stays clean ----

  predicate LiveCommand(t: Table, id: string) {
    id in t && !t[id].deleted && t[id].command != ""
  }

  predicate CreatedCommand(es: seq<Entry>, id: string) {
    exists i :: 0 <= i < |es| && es[i].id == id && es[i].command != ""
  }

  /** Every reported id comes once, and is that of a live row with a command, or of a created one. */
  ghost predicate Removable(t0: Table, cs: ChangeSet) {
    NoRepeats(cs.tombstoned) && forall id :: id in cs.tombstoned ==> LiveCommand(t0, id) || CreatedCommand(cs.created, id)
  }

  lemma {:induction false} OverlayCommands(rows: Table, es: seq<Entry>, id: string)
    requires FreshIn(rows, es)
    ensures id in Commands(Overlay(rows, es)) <==> id in Commands(rows) || CreatedCommand(es, id)
    decreases |es|
  {
    if es != [] {
      var init, e := es[..|es| - 1], es[|es| - 1];
      OverlayCommands(rows, init, id);
      assert es == init + [e];
      assert CreatedCommand(es, id) <==> CreatedCommand(init, id) || (e.id == id && e.command != "");
    }
  }

  lemma CreatedStaysKnown(rows: Table, es: seq<Entry>, ids: seq<string>, t0: Table)
    requires FreshIn(rows, es) && rows == LiveView(t0)
    ensures IdSet(ids) <= Commands(Overlay(rows, es)).Keys
       <==> forall id :: id in ids ==> LiveCommand(t0, id) || CreatedCommand(es, id)
  {
    forall id ensures id in Commands(Overlay(rows, es)) <==> LiveCommand(t0, id) || CreatedCommand(es, id) {
      OverlayCommands(rows, es, id);
    }
    assert IdSet(ids) <= Commands(Overlay(rows, es)).Keys <==> forall id :: id in ids ==> id in Commands(Overlay(rows, es));
  }

  /**
    The cache after the merge agrees with the table after the merge, or knows that it
    may not; and it turns dirty only if a reported id repeats or is none it could know.
  */
  lemma {:induction false} MergeKeepsAgreement(v: View, t0: Table, u: set<Event>, evs: seq<Event>)
    requires WellFormed(u) && Consistent(t0, u) && Elements(evs) <= u && Agrees(v, t0)
    ensures ApplyAll(t0, evs).Applied?
    ensures var Applied(t, cs) := ApplyAll(t0, evs);
            && (Batch(v, cs).dirty || Agrees(Batch(v, cs), t))
            && (Batch(v, cs).dirty <==> v.dirty || !Removable(t0, cs))
  {
    DeliveryFollows(t0, u, evs);
    BatchFollows(v, t0, u, ApplyAll(t0, evs).table, ApplyAll(t0, evs).changes);
    BatchClean(v, t0, u, ApplyAll(t0, evs).table, ApplyAll(t0, evs).changes);
  }

  lemma BatchFollows(v: View, t0: Table, u: set<Event>, t: Table, cs: ChangeSet)
    requires Follows(t0, u, t, cs) && Agrees(v, t0)
    ensures Batch(v, cs).dirty || Agrees(Batch(v, cs), t)
  {
    var rows := Overlay(LiveView(t0), cs.created);
    var v1 := CreateAll(v, cs.created);
    CreateAllKnows(v, LiveView(t0), cs.created);
    BuryAllKnows(v1, rows, cs.tombstoned);
    assert Batch(v, cs) == BuryAll(v1, cs.tombstoned);
    if Lost(rows, cs.tombstoned) {
      var id :| id in cs.tombstoned && id !in rows;
      CleanIff(v1, cs.tombstoned);
      assert id in IdSet(cs.tombstoned);
    }
  }

  lemma BatchClean(v: View, t0: Table, u: set<Event>, t: Table, cs: ChangeSet)
    requires Follows(t0, u, t, cs) && Agrees(v, t0)
    ensures Batch(v, cs).dirty <==> v.dirty || !Removable(t0, cs)
  {
    var v1 := CreateAll(v, cs.created);
    CreateAllKnows(v, LiveView(t0), cs.created);
    CreateAllKeeps(v, cs.created);
    CleanIff(v1, cs.tombstoned);
    CreatedStaysKnown(LiveView(t0), cs.created, cs.tombstoned, t0);
    assert Batch(v, cs) == BuryAll(v1, cs.tombstoned);
  }

  /** A rebuild from the live rows, in any order, agrees with the table. */
  lemma RebuildAgrees(t: Table, rows: seq<Entry>)
    requires FreshIn(map[], rows) && Overlay(map[], rows) == LiveView(t)
    ensures Agrees(CreateAll(EMPTY_VIEW, rows), t)
  {
    CreateAllKnows(EMPTY_VIEW, map[], rows);
  }
}
