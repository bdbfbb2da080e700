/**
  Applying synced events to the history table. Events of all devices arrive in any
  order and any number of times; the table's uniqueness rules (primary key, one row
  per origin, one live row per command, start, directory and device) decide what an
  insert does.
*/
module Merge {
  import opened Base

  /** The device and sequence number under which a row was first recorded. */
  datatype Origin = Origin(device: string, seqNo: int)

  datatype Entry = Entry(id: string, command: string, start: int, end: Option<int>, duration: Option<int>,
                         exit: Option<int>, cwd: string, session: string, hostname: string, device: string,
                         shell: string, deleted: bool, originDevice: string, originSeq: Option<int>)

  type Table = map<string, Entry>

  /** Both origin columns are set; an empty device is stored as NULL. */
  function OriginOf(e: Entry): Option<Origin> {
    if e.originDevice != "" && e.originSeq.Some? then Some(Origin(e.originDevice, e.originSeq.value)) else None
  }

  /** The dedup index covers live rows; an empty directory is stored as NULL and never collides. */
  predicate SameRun(a: Entry, b: Entry) {
    a.cwd != "" && a.command == b.command && a.start == b.start && a.cwd == b.cwd && a.device == b.device
  }

  /** Inserting `e` would break a uniqueness rule against row `r`. */
  predicate Collides(r: Entry, e: Entry) {
    || r.id == e.id
    || (OriginOf(e).Some? && OriginOf(r) == OriginOf(e))
    || (!r.deleted && !e.deleted && SameRun(r, e))
  }

  predicate Conflicts(t: Table, e: Entry) {
    exists id :: id in t && Collides(t[id], e)
  }

  predicate HasOrigin(t: Table, o: Origin) {
    exists id :: id in t && OriginOf(t[id]) == Some(o)
  }

  /** Adds the row, or changes nothing if a uniqueness rule stands against it. */
  function InsertOrIgnore(t: Table, e: Entry): Table {
    if Conflicts(t, e) then t else t[e.id := e]
  }

  /** Marks the row with this id, if there is one, as deleted. */
  function DeleteById(t: Table, id: string): Table {
    if id in t then t[id := t[id].(deleted := true)] else t
  }

  /** Marks every row with this origin as deleted. */
  function DeleteByOrigin(t: Table, o: Origin): Table {
    map id | id in t :: if OriginOf(t[id]) == Some(o) then t[id].(deleted := true) else t[id]
  }

  // ---- Events ----

  datatype Created = Created(id: string, command: string, start: int, end: int, duration: int, exit: Option<int>,
                             cwd: string, session: string, hostname: string, shell: string)

  datatype Tombstone = Tombstone(historyId: string, originDevice: string, originSeq: int)

  /** `Undecodable` is a payload that does not unmarshal, `Unknown` an unknown event type. */
  datatype Body = HistoryCreated(c: Created) | HistoryTombstoned(t: Tombstone) | DeviceMeta | CheckpointRef
                | Undecodable | Unknown

  datatype Event = Event(device: string, seqNo: int, body: Body)

  datatype Completion = Completion(id: string, end: int, exit: int)

  /** What a transaction did, in the terms the RAM cache understands. */
  datatype ChangeSet = ChangeSet(created: seq<Entry>, completed: seq<Completion>,
                                 tombstoned: seq<string>, commands: seq<string>)

  const NO_CHANGES := ChangeSet([], [], [], [])

  function CreatedChange(e: Option<Entry>): ChangeSet {
    NO_CHANGES.(created := if e.Some? && e.value.id != "" then [e.value] else [])
  }

  function TombstonedChange(ids: seq<string>): ChangeSet {
    NO_CHANGES.(tombstoned := ids)
  }

  function MergeChanges(a: ChangeSet, b: ChangeSet): ChangeSet {
    ChangeSet(a.created + b.created, a.completed + b.completed, a.tombstoned + b.tombstoned, a.commands + b.commands)
  }

  function EventOrigin(ev: Event): Origin {
    Origin(ev.device, ev.seqNo)
  }

  function EntryOf(ev: Event): Entry
    requires ev.body.HistoryCreated?
  {
    var p := ev.body.c;
    Entry(p.id, p.command, p.start, if p.end > 0 then Some(p.end) else None,
          if p.duration > 0 then Some(p.duration) else None, p.exit, p.cwd, p.session, p.hostname,
          ev.device, p.shell, false, ev.device, Some(ev.seqNo))
  }

  /** The row that stands for a deletion seen before its creation. */
  function Placeholder(id: string, o: Origin): Entry {
    Entry(id, "", 0, None, None, None, "", "", "", o.device, "", true, o.device, Some(o.seqNo))
  }

  function Digits(n: nat): string {
    if n < 10 then [('0' as int + n) as char] else Digits(n / 10) + [('0' as int + n % 10) as char]
  }

  function Decimal(n: int): string {
    if n < 0 then "-" + Digits(-n) else Digits(n)
  }

  function OriginText(o: Origin): string {
    o.device + ":" + Decimal(o.seqNo)
  }

  /** The id given to the placeholder when the tombstone names none. */
  function TombstoneId(o: Origin): string {
    "tombstone:" + OriginText(o)
  }

  function OriginId(o: Origin): string {
    "origin:" + OriginText(o)
  }

  datatype Applied = Applied(table: Table, changes: ChangeSet) | Failed

  function ApplyCreated(t: Table, ev: Event): (Table, Option<Entry>)
    requires ev.body.HistoryCreated?
  {
    if ev.device != "" && HasOrigin(t, EventOrigin(ev)) then (t, None)
    else (InsertOrIgnore(t, EntryOf(ev)), Some(EntryOf(ev)))
  }

  predicate CarriesOrigin(p: Tombstone) {
    p.originDevice != "" && p.originSeq > 0
  }

  function TombOrigin(p: Tombstone): Origin {
    Origin(p.originDevice, p.originSeq)
  }

  function ApplyTombstone(t: Table, p: Tombstone): (Table, seq<string>)
  {
    var t1 := if p.historyId != "" then DeleteById(t, p.historyId) else t;
    var ids := if p.historyId != "" then [p.historyId] else [];
    if !CarriesOrigin(p) then (t1, ids)
    else
      var o := TombOrigin(p);
      if !HasOrigin(t1, o) then
        var id := if p.historyId == "" then TombstoneId(o) else p.historyId;
        (InsertOrIgnore(t1, Placeholder(id, o)), ids + [id])
      else
        (DeleteByOrigin(t1, o), if p.historyId == "" then ids + [OriginId(o)] else ids)
  }

  function ApplyTracked(t: Table, ev: Event): Applied {
    match ev.body
    case HistoryCreated(c) =>
      var (t', e) := ApplyCreated(t, ev);
      Applied(t', CreatedChange(e))
    case HistoryTombstoned(p) =>
      var (t', ids) := ApplyTombstone(t, p);
      Applied(t', TombstonedChange(ids))
    case DeviceMeta => Applied(t, NO_CHANGES)
    case CheckpointRef => Applied(t, NO_CHANGES)
    case Undecodable => Failed
    case Unknown => Failed
  }

  /** A transaction over a list of events; the first failure undoes all of it. */
  function ApplyAll(t: Table, evs: seq<Event>): Applied {
    if evs == [] then Applied(t, NO_CHANGES)
    else match ApplyAll(t, evs[..|evs| - 1])
         case Failed => Failed
         case Applied(t', cs) =>
           match ApplyTracked(t', evs[|evs| - 1])
           case Failed => Failed
           case Applied(t'', cs') => Applied(t'', MergeChanges(cs, cs'))
  }

  /** The history table of one transaction. */
  class HistoryTable {
    var rows: Table

    constructor (rows: Table)
      ensures this.rows == rows
    {
      this.rows := rows;
    }

    method ApplyCreatedEvent(ev: Event) returns (e: Option<Entry>)
      requires ev.body.HistoryCreated?
      modifies this
      ensures (rows, e) == ApplyCreated(old(rows), ev)
    {
      if ev.device != "" && HasOrigin(rows, EventOrigin(ev)) {
        return None;
      }
      rows := InsertOrIgnore(rows, EntryOf(ev));
      e := Some(EntryOf(ev));
    }

    method ApplyTombstoneEvent(p: Tombstone) returns (ids: seq<string>)
      modifies this
      ensures (rows, ids) == ApplyTombstone(old(rows), p)
    {
      ids := [];
      if p.historyId != "" {
        rows := DeleteById(rows, p.historyId);
        ids := [p.historyId];
      }
      if p.originDevice != "" && p.originSeq > 0 {
        var o := TombOrigin(p);
        var hit := HasOrigin(rows, o);
        ghost var t1 := rows;
        rows := DeleteByOrigin(rows, o);
        if !hit {
          assert rows == t1;
          var id := p.historyId;
          if id == "" {
            id := TombstoneId(o);
          }
          rows := InsertOrIgnore(rows, Placeholder(id, o));
          ids := ids + [id];
        } else if p.historyId == "" {
          ids := ids + [OriginId(o)];
        }
      }
    }

    /** Applies the events in order; on a failure the table is as it was. */
    method ApplyEvents(evs: seq<Event>) returns (cs: ChangeSet, ok: bool)
      modifies this
      ensures ok ==> ApplyAll(old(rows), evs) == Applied(rows, cs)
      ensures !ok ==> ApplyAll(old(rows), evs).Failed? && rows == old(rows)
    {
      cs := NO_CHANGES;
      var before := rows;
      for i := 0 to |evs|
        invariant ApplyAll(before, evs[..i]) == Applied(rows, cs)
      {
        var ev := evs[i];
        assert evs[..i + 1][..i] == evs[..i];
        match ev.body {
          case HistoryCreated(_) =>
            var e := ApplyCreatedEvent(ev);
            cs := MergeChanges(cs, CreatedChange(e));
          case HistoryTombstoned(p) =>
            var ids := ApplyTombstoneEvent(p);
            cs := MergeChanges(cs, TombstonedChange(ids));
          case DeviceMeta => cs := MergeChanges(cs, NO_CHANGES);
          case CheckpointRef => cs := MergeChanges(cs, NO_CHANGES);
          case _ =>
            rows := before;
            FailureStays(before, evs, i);
            return NO_CHANGES, false;
        }
      }
      assert evs[..|evs|] == evs;
      ok := true;
    }
  }

  lemma {:induction false} FailureStays(t: Table, evs: seq<Event>, i: nat)
    requires i < |evs| && ApplyAll(t, evs[..i + 1]).Failed?
    ensures ApplyAll(t, evs).Failed?
    decreases |evs|
  {
    if i + 1 == |evs| {
      assert evs[..i + 1] == evs;
    } else {
      assert evs[..|evs| - 1][..i + 1] == evs[..i + 1];
      FailureStays(t, evs[..|evs| - 1], i);
    }
  }
}
