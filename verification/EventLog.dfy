/**
  The local event log: numbering, heads and compaction. `ever` and `done` remember,
  for the statements below, which events were ever appended and ever applied.
*/
module EventLog {
  import opened Base
  import opened Merge
  import opened Frontiers

  datatype Kind = CreatedKind | TombstonedKind | OtherKind

  /**
    A stored event and its time. Creations and tombstones carry no payload: they are
    rebuilt from the history row. A payload carries the time of its row.
  */
  datatype Row = Row(kind: Kind, historyId: string, payload: Option<Body>, at: int, applied: bool)

  type Rows = map<Origin, Row>

  datatype Log = Log(rows: Rows, heads: Frontier, ever: set<Origin>, done: set<Origin>)

  // ---- Operations ----

  /** Adds a row to a table keyed by device and number; an existing key is an error. */
  function Insert(rows: Rows, o: Origin, r: Row): Option<Rows> {
    if o in rows then None else Some(rows[o := r])
  }

  function Mark(rows: Rows, o: Origin): Rows {
    if o in rows then rows[o := rows[o].(applied := true)] else rows
  }

  /** An upsert that never lowers a head. */
  function SetHead(heads: Frontier, device: string, seqNo: int): Frontier {
    if device !in heads || seqNo > heads[device] then heads[device := seqNo] else heads
  }

  predicate Compactable(rows: Rows, heads: Frontier, o: Origin)
    requires o in rows
  {
    rows[o].kind.CreatedKind? && rows[o].applied && o.seqNo <= At(heads, o.device)
  }

  function Compacted(rows: Rows, heads: Frontier): Rows {
    map o | o in rows && !Compactable(rows, heads, o) :: rows[o]
  }

  /** One more than the largest number in the rows or the head. */
  ghost predicate IsNext(rows: Rows, heads: Frontier, device: string, n: int) {
    && (forall o :: o in rows && o.device == device ==> o.seqNo < n)
    && (device in heads ==> heads[device] < n)
    && ((forall o :: o in rows ==> o.device != device) ==> n >= 1)
    && ((exists o :: o in rows && o.device == device && o.seqNo == n - 1)
        || (device in heads && heads[device] == n - 1)
        || ((forall o :: o in rows ==> o.device != device) && n == 1))
  }

  method NextSeq(rows: Rows, heads: Frontier, device: string) returns (n: int)
    ensures IsNext(rows, heads, device, n)
  {
    var max: Option<int>, todo := None, rows.Keys;
    while todo != {}
      invariant todo <= rows.Keys
      invariant max.None? ==> forall o :: o in rows && o !in todo ==> o.device != device
      invariant max.Some? ==> forall o :: o in rows && o !in todo && o.device == device ==> o.seqNo <= max.value
      invariant max.Some? ==> exists o :: o in rows && o.device == device && o.seqNo == max.value
    {
      var o :| o in todo;
      if o.device == device && (max.None? || o.seqNo > max.value) {
        max := Some(o.seqNo);
      }
      todo := todo - {o};
    }
    n := if max.Some? then max.value else 0;
    if device in heads && heads[device] > n {
      n := heads[device];
    }
    if max.Some? && n == max.value {
      var o :| o in rows && o.device == device && o.seqNo == max.value;
      n := n + 1;
      assert o.seqNo == n - 1;
    } else {
      n := n + 1;
    }
  }

  ghost predicate AppliedRow(rows: Rows, device: string, seqNo: int) {
    Origin(device, seqNo) in rows && rows[Origin(device, seqNo)].applied
  }

  /** `to` is as far as applied rows follow on from `from` without a gap. */
  ghost predicate Contiguous(rows: Rows, device: string, from: int, to: int) {
    && from <= to && !AppliedRow(rows, device, to + 1)
    && forall k :: from < k <= to ==> AppliedRow(rows, device, k)
  }

  /** The numbers of a device above `n`. */
  ghost function NumbersAbove(rows: Rows, device: string, n: int): set<Origin> {
    set o | o in rows && o.device == device && o.seqNo > n
  }

  /** The heads with one of them moved up to `to`. */
  function Moved(heads: Frontier, device: string, to: int): Frontier {
    if to > At(heads, device) then heads[device := to] else heads
  }

  method AdvanceContiguous(rows: Rows, heads: Frontier, device: string) returns (heads': Frontier)
    ensures Contiguous(rows, device, At(heads, device), At(heads', device))
    ensures heads' == Moved(heads, device, At(heads', device))
  {
    heads' := heads;
    var head := At(heads, device);
    while true
      invariant At(heads, device) <= head && head == At(heads', device)
      invariant forall k :: At(heads, device) < k <= head ==> AppliedRow(rows, device, k)
      invariant heads' == Moved(heads, device, head)
      decreases |NumbersAbove(rows, device, head)|
    {
      var next := head + 1;
      if !(Origin(device, next) in rows && rows[Origin(device, next)].applied) {
        return;
      }
      FewerAbove(rows, device, head);
      head := next;
      heads' := SetHead(heads', device, head);
    }
  }

  lemma FewerAbove(rows: Rows, device: string, n: int)
    requires Origin(device, n + 1) in rows
    ensures |NumbersAbove(rows, device, n + 1)| < |NumbersAbove(rows, device, n)|
  {
    assert NumbersAbove(rows, device, n) == NumbersAbove(rows, device, n + 1) + {Origin(device, n + 1)};
  }

  // ---- Runs ----

  datatype Step =
    | AppendLocal(device: string, seqNo: int, row: Row)
    | AppendOther(o: Origin, row: Row)
    | MarkApplied(o: Origin)
    | Advance(device: string)
    | Jump(device: string, seqNo: int)
    | Compact

  ghost predicate Appended(l: Log, o: Origin, row: Row, l': Log) {
    && !row.applied && o.seqNo >= 1
    && match Insert(l.rows, o, row)
       case None => l' == l
       case Some(rows) => l' == l.(rows := rows, ever := l.ever + {o})
  }

  ghost predicate Next(l: Log, step: Step, l': Log) {
    match step
    case AppendLocal(device, n, row) => IsNext(l.rows, l.heads, device, n) && Appended(l, Origin(device, n), row, l')
    case AppendOther(o, row) => Appended(l, o, row, l')
    case MarkApplied(o) => l' == l.(rows := Mark(l.rows, o), done := l.done + (if o in l.rows then {o} else {}))
    case Advance(device) =>
      && l' == l.(heads := Moved(l.heads, device, At(l'.heads, device)))
      && Contiguous(l.rows, device, At(l.heads, device), At(l'.heads, device))
    case Jump(device, n) => l' == l.(heads := SetHead(l.heads, device, n))
    case Compact => l' == l.(rows := Compacted(l.rows, l.heads))
  }

  /** A number that was used is still in the log or not above the head. */
  ghost predicate Inv(l: Log) {
    && (forall o :: o in l.rows ==> o in l.ever)
    && (forall o :: o in l.ever ==> o.seqNo >= 1)
    && (forall o :: o in l.ever ==> o in l.rows || o.seqNo <= At(l.heads, o.device))
  }

  /** Every event up to a head was applied. */
  ghost predicate Standing(l: Log) {
    forall d, k :: 1 <= k <= At(l.heads, d) ==> Origin(d, k) in l.done
  }

  /** Nothing used is forgotten, nothing applied is undone, no head falls. */
  ghost predicate Grows(l: Log, l': Log) {
    && l.ever <= l'.ever && l.done <= l'.done
    && forall d :: d in l.heads ==> d in l'.heads && l.heads[d] <= l'.heads[d]
  }

  lemma NextInv(l: Log, step: Step, l': Log)
    requires Inv(l) && Next(l, step, l')
    ensures Inv(l') && Grows(l, l')
  {
  }

  ghost predicate Initial(l: Log) {
    l.rows == map[] && l.heads == map[] && l.ever == {} && l.done == {}
  }

  ghost predicate Run(logs: seq<Log>, steps: seq<Step>) {
    && |logs| == |steps| + 1 && Initial(logs[0])
    && forall i :: 0 <= i < |steps| ==> Next(logs[i], steps[i], logs[i + 1])
  }

  lemma {:induction false} RunInv(logs: seq<Log>, steps: seq<Step>, n: nat)
    requires Run(logs, steps) && n < |logs|
    ensures Inv(logs[n])
    decreases n
  {
    if n > 0 {
      RunInv(logs, steps, n - 1);
      NextInv(logs[n - 1], steps[n - 1], logs[n]);
    }
  }

  lemma {:induction false} RunGrows(logs: seq<Log>, steps: seq<Step>, i: nat, j: nat)
    requires Run(logs, steps) && i <= j < |logs|
    ensures Grows(logs[i], logs[j])
    decreases j - i
  {
    if i < j {
      RunGrows(logs, steps, i, j - 1);
    }
  }

  /** A number handed out is new: no event with it was ever in the log before, compacted or not. */
  lemma NumbersAreNew(logs: seq<Log>, steps: seq<Step>, n: nat)
    requires Run(logs, steps) && n < |steps| && steps[n].AppendLocal?
    ensures var o := Origin(steps[n].device, steps[n].seqNo);
            o !in logs[n].ever && o in logs[n + 1].rows
  {
    RunInv(logs, steps, n);
    assert Next(logs[n], steps[n], logs[n + 1]);
  }

  /** Two numbers handed out to one device in one run differ; the later one is larger. */
  lemma NumbersIncrease(logs: seq<Log>, steps: seq<Step>, i: nat, j: nat)
    requires Run(logs, steps) && i < j < |steps| && steps[i].AppendLocal? && steps[j].AppendLocal?
    requires steps[i].device == steps[j].device
    ensures steps[i].seqNo < steps[j].seqNo
  {
    NumbersAreNew(logs, steps, i);
    RunInv(logs, steps, i + 1);
    RunGrows(logs, steps, i + 1, j);
    RunInv(logs, steps, j);
    var o := Origin(steps[i].device, steps[i].seqNo);
    assert o in logs[j].ever;
    assert Next(logs[j], steps[j], logs[j + 1]);
  }

  /** Heads only rise. */
  lemma HeadsRise(logs: seq<Log>, steps: seq<Step>, i: nat, j: nat, device: string)
    requires Run(logs, steps) && i <= j < |logs| && device in logs[i].heads
    ensures device in logs[j].heads && logs[i].heads[device] <= logs[j].heads[device]
  {
    RunGrows(logs, steps, i, j);
  }

  // ---- What a head means ----

  /** Among the first `n` steps the head of `device` was set outright to `k` or more. */
  ghost predicate UnderJump(steps: seq<Step>, n: nat, device: string, k: int)
    requires n <= |steps|
  {
    exists i :: 0 <= i < n && steps[i].Jump? && steps[i].device == device && k <= steps[i].seqNo
  }

  /** Every number under a head was applied, or the head was set outright to it or above. */
  ghost predicate Explained(l: Log, steps: seq<Step>, n: nat)
    requires n <= |steps|
  {
    && (forall o :: o in l.rows && l.rows[o].applied ==> o in l.done)
    && (forall d, k :: 1 <= k <= At(l.heads, d) ==> Origin(d, k) in l.done || UnderJump(steps, n, d, k))
  }

  lemma NextExplained(l: Log, steps: seq<Step>, n: nat, l': Log)
    requires n < |steps| && Explained(l, steps, n) && Next(l, steps[n], l')
    ensures Explained(l', steps, n + 1)
  {
    forall d, k | 1 <= k <= At(l'.heads, d) ensures Origin(d, k) in l'.done || UnderJump(steps, n + 1, d, k) {
      if k <= At(l.heads, d) {
        if UnderJump(steps, n, d, k) {
          var i :| 0 <= i < n && steps[i].Jump? && steps[i].device == d && k <= steps[i].seqNo;
          assert 0 <= i < n + 1;
        }
      } else if steps[n].Advance? {
        assert AppliedRow(l.rows, d, k);
      } else {
        assert steps[n].Jump? && steps[n].device == d && k <= steps[n].seqNo;
      }
    }
  }

  lemma {:induction false} RunExplained(logs: seq<Log>, steps: seq<Step>, n: nat)
    requires Run(logs, steps) && n < |logs|
    ensures Explained(logs[n], steps, n)
    decreases n
  {
    if n > 0 {
      RunExplained(logs, steps, n - 1);
      NextExplained(logs[n - 1], steps, n - 1, logs[n]);
    }
  }

  /** A head that was set outright to `k` or more is there for good. */
  lemma JumpedHead(logs: seq<Log>, steps: seq<Step>, i: nat, n: nat)
    requires Run(logs, steps) && i < n < |logs| && steps[i].Jump?
    ensures steps[i].seqNo <= At(logs[n].heads, steps[i].device)
  {
    assert Next(logs[i], steps[i], logs[i + 1]);
    HeadsRise(logs, steps, i + 1, n, steps[i].device);
  }

  /**
    In every run: every event up to every head was applied if and only if, each time a
    head was set outright, the events up to that number were applied, then or later.
  */
  lemma HeadsMeanAppliedIff(logs: seq<Log>, steps: seq<Step>, n: nat)
    requires Run(logs, steps) && n < |logs|
    ensures Standing(logs[n])
       <==> forall i, k :: 0 <= i < n && steps[i].Jump? && 1 <= k <= steps[i].seqNo ==>
                             Origin(steps[i].device, k) in logs[n].done
  {
    RunExplained(logs, steps, n);
    forall i | 0 <= i < n && steps[i].Jump? ensures steps[i].seqNo <= At(logs[n].heads, steps[i].device) {
      JumpedHead(logs, steps, i, n);
    }
  }

  /** In particular when no head was set outright. */
  lemma HeadsMeanApplied(logs: seq<Log>, steps: seq<Step>, n: nat)
    requires Run(logs, steps) && n < |logs| && forall i :: 0 <= i < n ==> !steps[i].Jump?
    ensures Standing(logs[n])
  {
    HeadsMeanAppliedIff(logs, steps, n);
  }

  /** A run that sets a head to a number nobody applied. */
  lemma JumpAboveApplied(device: string) returns (logs: seq<Log>, steps: seq<Step>)
    ensures Run(logs, steps) && !Standing(logs[|steps|])
  {
    var start := Log(map[], map[], {}, {});
    logs, steps := [start, start.(heads := map[device := 1])], [Jump(device, 1)];
    assert 1 <= 1 <= At(logs[1].heads, device) && Origin(device, 1) !in logs[1].done;
  }

  /** One head moved over applied rows, up to the first number that is not applied. */
  ghost predicate MovedOver(rows: Rows, heads: Frontier, heads': Frontier, device: string) {
    && (forall d :: d != device ==> At(heads', d) == At(heads, d)) && At(heads', device) >= At(heads, device)
    && (forall o: Origin :: o.device == device && At(heads, device) < o.seqNo <= At(heads', device) ==> o in rows && rows[o].applied)
    && (forall o: Origin :: o.device == device && o.seqNo == At(heads', device) + 1 ==> !(o in rows && rows[o].applied))
  }

  lemma ContiguousMeans(rows: Rows, heads: Frontier, heads': Frontier, device: string)
    requires Contiguous(rows, device, At(heads, device), At(heads', device)) && heads' == Moved(heads, device, At(heads', device))
    ensures MovedOver(rows, heads, heads', device)
  {
    forall o: Origin | o.device == device && At(heads, device) < o.seqNo <= At(heads', device) ensures o in rows && rows[o].applied {
      assert AppliedRow(rows, device, o.seqNo);
    }
    forall o: Origin | o.device == device && o.seqNo == At(heads', device) + 1 ensures !(o in rows && rows[o].applied) {
      assert !AppliedRow(rows, device, o.seqNo);
    }
  }

  // ---- The tables themselves ----

  class EventStore {
    var rows: Rows
    var heads: Frontier
    ghost var ever: set<Origin>
    ghost var done: set<Origin>

    ghost function State(): Log
      reads this
    {
      Log(rows, heads, ever, done)
    }

    ghost predicate Valid()
      reads this
    {
      Inv(State())
    }

    constructor ()
      ensures Valid() && Initial(State())
    {
      rows, heads, ever, done := map[], map[], {}, {};
    }

    /** Gives the event the next number of its device. */
    method AppendNext(device: string, kind: Kind, historyId: string, payload: Option<Body>, at: int) returns (n: int)
      requires Valid()
      modifies this
      ensures Valid() && Origin(device, n) !in old(ever)
      ensures Next(old(State()), AppendLocal(device, n, Row(kind, historyId, payload, at, false)), State())
      ensures heads == old(heads) && rows == old(rows)[Origin(device, n) := Row(kind, historyId, payload, at, false)]
    {
      n := NextSeq(rows, heads, device);
      var ok := Append(Origin(device, n), kind, historyId, payload, at);
    }

    /** Events are decoded before they come here, and decoding refuses numbers below 1. */
    method Append(o: Origin, kind: Kind, historyId: string, payload: Option<Body>, at: int) returns (ok: bool)
      requires Valid() && o.seqNo >= 1
      modifies this
      ensures Valid() && Next(old(State()), AppendOther(o, Row(kind, historyId, payload, at, false)), State())
      ensures ok <==> o !in old(rows)
      ensures heads == old(heads) && rows == if ok then old(rows)[o := Row(kind, historyId, payload, at, false)] else old(rows)
    {
      var r := Row(kind, historyId, payload, at, false);
      match Insert(rows, o, r) {
        case None => ok := false;
        case Some(rows') =>
          NextInv(State(), AppendOther(o, r), Log(rows', heads, ever + {o}, done));
          rows, ever, ok := rows', ever + {o}, true;
      }
    }

    method MarkAsApplied(o: Origin)
      requires Valid()
      modifies this
      ensures Valid() && Next(old(State()), MarkApplied(o), State())
      ensures rows.Keys == old(rows).Keys && heads == old(heads)
      ensures forall x :: x in rows ==> rows[x] == old(rows)[x].(applied := old(rows)[x].applied || x == o)
    {
      ghost var done' := done + (if o in rows then {o} else {});
      NextInv(State(), MarkApplied(o), Log(Mark(rows, o), heads, ever, done'));
      rows := Mark(rows, o);
      done := done';
    }

    method AdvanceHead(device: string)
      requires Valid()
      modifies this
      ensures Valid() && Next(old(State()), Advance(device), State())
      ensures rows == old(rows) && MovedOver(rows, old(heads), heads, device)
    {
      var heads' := AdvanceContiguous(rows, heads, device);
      ContiguousMeans(rows, heads, heads', device);
      NextInv(State(), Advance(device), Log(rows, heads', ever, done));
      heads := heads';
    }

    method SetHeadTo(device: string, seqNo: int)
      requires Valid()
      modifies this
      ensures Valid() && Next(old(State()), Jump(device, seqNo), State())
      ensures rows == old(rows) && device in heads && heads.Keys == old(heads).Keys + {device}
      ensures heads[device] == if device in old(heads) && old(heads)[device] > seqNo then old(heads)[device] else seqNo
      ensures forall d :: d in heads && d != device ==> heads[d] == old(heads)[d]
    {
      NextInv(State(), Jump(device, seqNo), Log(rows, SetHead(heads, device, seqNo), ever, done));
      heads := SetHead(heads, device, seqNo);
    }

    method CompactUpToHeads()
      requires Valid()
      modifies this
      ensures Valid() && Next(old(State()), Compact, State())
      ensures heads == old(heads)
      ensures forall x :: x in rows <==> x in old(rows) && !(old(rows)[x].kind.CreatedKind? && old(rows)[x].applied
                                                             && x.seqNo <= if x.device in heads then heads[x.device] else 0)
      ensures forall x :: x in rows ==> rows[x] == old(rows)[x]
    {
      NextInv(State(), Compact, Log(Compacted(rows, heads), heads, ever, done));
      rows := Compacted(rows, heads);
    }
  }
}
