/**
  The bounded backlog of the shadow screen parser, and the protocol around it: one
  producer that never waits, one consumer that parses in order, waiters that use the
  sequence numbers as a barrier. When the byte budget is exceeded the backlog is
  dropped and the queue is marked dirty.
*/
module ParseQueue {
  import opened Base

  const MAX_QUEUED_BYTES: nat := 0x10_0000

  datatype ParseItem = ParseItem(seqNo: nat, data: seq<byte>, cpr: bool)

  const BLANK := ParseItem(0, [], false)

  /** The queue as its users see it: the waiting items and the counters. */
  datatype Queue = Queue(items: seq<ParseItem>, bytes: int, enqueued: nat, parsed: nat,
                         dirty: bool, stopped: bool, budget: nat)

  function Empty(budget: int): (q: Queue)
  {
    Queue([], 0, 0, 0, false, false, if budget < 1 then MAX_QUEUED_BYTES else budget)
  }

  predicate Overflows(q: Queue, data: seq<byte>) {
    q.bytes + |data| > q.budget
  }

  /** Drops the whole backlog; everything accepted so far counts as parsed. */
  function Saturate(q: Queue): Queue {
    q.(items := [], bytes := 0, parsed := q.enqueued, dirty := true)
  }

  function Append(q: Queue, data: seq<byte>, cpr: bool): Queue {
    q.(items := q.items + [ParseItem(q.enqueued + 1, data, cpr)],
    bytes := q.bytes + |data|,
    enqueued := q.enqueued + 1)
  }

  predicate Accepts(q: Queue, data: seq<byte>, cpr: bool) {
    !q.stopped && !(data == [] && !cpr) && |data| <= q.budget
  }

  /** The queue after an enqueue call. */
  function Enqueue(q: Queue, data: seq<byte>, cpr: bool): Queue {
    if (data == [] && !cpr) || q.stopped then q
    else if !Overflows(q, data) then Append(q, data, cpr)
    else if |data| > q.budget then Saturate(q)
    else Append(Saturate(q), data, cpr)
  }

  function Pop(q: Queue): Queue
  {
    if q.items == [] then q
    else
      var left := q.bytes - |q.items[0].data|;
      q.(items := q.items[1..], bytes := if left < 0 then 0 else left)
  }

  function MarkParsed(q: Queue, seqNo: nat): Queue {
    if seqNo > q.parsed then q.(parsed := seqNo) else q
  }

  function Stop(q: Queue): Queue {
    q.(stopped := true, items := [], bytes := 0, parsed := q.enqueued)
  }

  /** What an enqueue call does, field by field: refuse, append, or drop the backlog first. */
  lemma EnqueueMeans(q: Queue, data: seq<byte>, cpr: bool)
    ensures var q', item := Enqueue(q, data, cpr), ParseItem(q.enqueued + 1, data, cpr);
            && q'.stopped == q.stopped && q'.budget == q.budget
            && (if q.stopped || (data == [] && !cpr) then q' == q
                else if q.bytes + |data| <= q.budget then
                  && q'.items == q.items + [item] && q'.bytes == q.bytes + |data| && q'.enqueued == q.enqueued + 1
                  && q'.parsed == q.parsed && q'.dirty == q.dirty
                else if |data| <= q.budget then
                  && q'.items == [item] && q'.bytes == |data| && q'.enqueued == q.enqueued + 1
                  && q'.parsed == q.enqueued && q'.dirty
                else
                  && q'.items == [] && q'.bytes == 0 && q'.enqueued == q.enqueued && q'.parsed == q.enqueued && q'.dirty)
    ensures q.bytes >= 0 ==> (Accepts(q, data, cpr) <==> Enqueue(q, data, cpr).enqueued == q.enqueued + 1)
  {
  }

  /** The other operations, field by field; without a positive limit the budget is one mebibyte. */
  lemma QueueMeans(q: Queue, seqNo: nat, limit: int)
    ensures var e := Empty(limit);
            && e.items == [] && e.bytes == e.enqueued == e.parsed == 0 && !e.dirty && !e.stopped
            && e.budget == if limit >= 1 then limit else 1_048_576
    ensures q.items != [] && q.bytes >= |q.items[0].data| ==> Pop(q) == q.(items := q.items[1..], bytes := q.bytes - |q.items[0].data|)
    ensures q.items == [] ==> Pop(q) == q
    ensures MarkParsed(q, seqNo) == q.(parsed := if seqNo > q.parsed then seqNo else q.parsed)
    ensures Stop(q) == q.(stopped := true, items := [], bytes := 0, parsed := q.enqueued)
  {
  }

  // ---- The object: a slice with a moving head, compacted now and then ----

  class BacklogQueue {
    var items: seq<ParseItem>
    var head: nat
    var queuedBytes: int
    var enqueuedSeq: nat
    var parsedSeq: nat
    var dirty: bool
    var stopped: bool
    const budget: nat
    var maxQueued: int
    var saturations: nat

    /** Items that were taken are forgotten, and do not outnumber the others for long. */
    ghost predicate Valid()
      reads this
    {
      && head <= |items| && queuedBytes >= 0
      && (head <= 32 || 2 * head < |items|)
      && forall i :: 0 <= i < head ==> items[i] == BLANK
    }

    ghost function View(): Queue
      requires Valid()
      reads this
    {
      Queue(items[head..], queuedBytes, enqueuedSeq, parsedSeq, dirty, stopped, budget)
    }

    constructor (limit: int)
      ensures Valid() && View() == Empty(limit) && saturations == 0
    {
      budget := if limit < 1 then MAX_QUEUED_BYTES else limit;
      items, head, queuedBytes, enqueuedSeq, parsedSeq := [], 0, 0, 0, 0;
      dirty, stopped, maxQueued, saturations := false, false, 0, 0;
    }

    /** Forgets the backlog. */
    method DropBacklog()
      requires Valid()
      modifies this
      ensures Valid() && View() == Saturate(old(View())) && enqueuedSeq == old(enqueuedSeq) && saturations == old(saturations) + 1
      ensures maxQueued == old(maxQueued)
    {
      saturations := saturations + 1;
      dirty := true;
      items := [];
      head := 0;
      queuedBytes := 0;
      parsedSeq := enqueuedSeq;
    }

    method Push(data: seq<byte>, cpr: bool)
      requires Valid()
      modifies this
      ensures Valid() && View() == Append(old(View()), data, cpr)
      ensures enqueuedSeq == old(enqueuedSeq) + 1 && saturations == old(saturations)
      ensures maxQueued == if queuedBytes > old(maxQueued) then queuedBytes else old(maxQueued)
    {
      enqueuedSeq := enqueuedSeq + 1;
      ghost var live := items[head..];
      items := items + [ParseItem(enqueuedSeq, data, cpr)];
      assert items[head..] == live + [ParseItem(enqueuedSeq, data, cpr)];
      queuedBytes := queuedBytes + |data|;
      if queuedBytes > maxQueued {
        maxQueued := queuedBytes;
      }
    }

    method Put(data: seq<byte>, cpr: bool) returns (seqNo: nat, ok: bool)
      requires Valid()
      modifies this
      ensures Valid() && View() == Enqueue(old(View()), data, cpr)
      ensures ok == Accepts(old(View()), data, cpr)
      ensures ok ==> seqNo == enqueuedSeq == old(enqueuedSeq) + 1
      ensures !ok ==> enqueuedSeq == old(enqueuedSeq) && (seqNo == enqueuedSeq || (data == [] && !cpr && seqNo == 0))
      ensures maxQueued == if queuedBytes > old(maxQueued) && ok then queuedBytes else old(maxQueued)
      ensures saturations == old(saturations) + if !(data == [] && !cpr) && !old(stopped) && Overflows(old(View()), data) then 1 else 0
    {
      if |data| == 0 && !cpr {
        return 0, false;
      }
      if stopped {
        return enqueuedSeq, false;
      }
      if queuedBytes + |data| > budget {
        DropBacklog();
        if |data| > budget {
          return enqueuedSeq, false;
        }
      }
      Push(data, cpr);
      return enqueuedSeq, true;
    }

    method Take() returns (item: ParseItem, ok: bool)
      requires Valid()
      modifies this
      ensures Valid() && View() == Pop(old(View()))
      ensures ok == (old(View()).items != [])
      ensures ok ==> item == old(View()).items[0]
    {
      if head >= |items| {
        return BLANK, false;
      }
      ghost var live := items[head..];
      item := items[head];
      items := items[head := BLANK];
      head := head + 1;
      assert items[head..] == live[1..];
      queuedBytes := queuedBytes - |item.data|;
      if queuedBytes < 0 {
        queuedBytes := 0;
      }
      if head > 32 && head * 2 >= |items| {
        items := items[head..];
        head := 0;
        assert items[0..] == items;
      }
      ok := true;
    }

    method Mark(seqNo: nat)
      requires Valid()
      modifies this
      ensures Valid() && View() == MarkParsed(old(View()), seqNo)
    {
      if seqNo > parsedSeq {
        parsedSeq := seqNo;
      }
    }

    method Shut()
      requires Valid()
      modifies this
      ensures Valid() && View() == Stop(old(View()))
    {
      stopped := true;
      items := [];
      head := 0;
      queuedBytes := 0;
      parsedSeq := enqueuedSeq;
    }
  }

  // ---- The protocol ----

  /** Where the single consumer stands between taking an item and marking it parsed. */
  datatype Consumer = Idle | Holding(item: ParseItem) | Written(item: ParseItem)

  /** The queue, its consumer, every item ever accepted, and the items written to the screen, in order. */
  datatype State = State(q: Queue, consumer: Consumer, accepted: seq<ParseItem>, screen: seq<ParseItem>)

  datatype Step = Produce(data: seq<byte>, cpr: bool) | TakeNext | WriteScreen | MarkDone | StopAll

  function Initial(budget: int): State {
    State(Empty(budget), Idle, [], [])
  }

  /** One atomic step of some thread; a step that is not possible leaves the state alone. */
  function Next(s: State, step: Step): State {
    match step
    case Produce(data, cpr) =>
      s.(q := Enqueue(s.q, data, cpr),
      accepted := if Accepts(s.q, data, cpr) then s.accepted + [ParseItem(s.q.enqueued + 1, data, cpr)] else s.accepted)
    case TakeNext =>
      if s.consumer.Idle? && s.q.items != [] then s.(consumer := Holding(s.q.items[0]), q := Pop(s.q)) else s
    case WriteScreen =>
      if s.consumer.Holding? then s.(consumer := Written(s.consumer.item), screen := s.screen + [s.consumer.item]) else s
    case MarkDone =>
      if s.consumer.Written? then s.(consumer := Idle, q := MarkParsed(s.q, s.consumer.item.seqNo)) else s
    case StopAll =>
      s.(q := Stop(s.q))
  }

  function Run(budget: int, steps: seq<Step>): State {
    if steps == [] then Initial(budget) else Next(Run(budget, steps[..|steps| - 1]), steps[|steps| - 1])
  }

  function ByteSum(items: seq<ParseItem>): nat {
    if items == [] then 0 else ByteSum(items[..|items| - 1]) + |items[|items| - 1].data|
  }

  /** The item in the consumer's hands still counts: its number has not been passed. */
  predicate InFlight(s: State) {
    !s.consumer.Idle? && s.consumer.item.seqNo > s.q.parsed
  }

  function Flying(s: State): nat {
    if InFlight(s) then 1 else 0
  }

  /** The outstanding numbers are exactly parsed+1 .. enqueued: first the item in flight, then the queue. */
  ghost predicate Contiguous(s: State) {
    && (InFlight(s) ==> s.consumer.item.seqNo == s.q.parsed + 1)
    && (forall i :: 0 <= i < |s.q.items| ==> s.q.items[i].seqNo == s.q.parsed + Flying(s) + 1 + i)
    && s.q.parsed + Flying(s) + |s.q.items| == s.q.enqueued
  }

  ghost predicate WithinBudget(q: Queue) {
    q.bytes == ByteSum(q.items) <= q.budget
  }

  ghost predicate IsAccepted(s: State, item: ParseItem) {
    1 <= item.seqNo <= |s.accepted| && s.accepted[item.seqNo - 1] == item
  }

  ghost predicate Genuine(s: State) {
    && |s.accepted| == s.q.enqueued
    && (forall i :: 0 <= i < |s.accepted| ==> s.accepted[i].seqNo == i + 1)
    && (forall i :: 0 <= i < |s.q.items| ==> IsAccepted(s, s.q.items[i]))
    && (!s.consumer.Idle? ==> IsAccepted(s, s.consumer.item))
    && (forall i :: 0 <= i < |s.screen| ==> IsAccepted(s, s.screen[i]))
  }

  /** Number of the last item written to the screen. */
  function LastWritten(s: State): nat {
    if s.screen == [] then 0 else s.screen[|s.screen| - 1].seqNo
  }

  /** The screen has seen items in order and without repetition, even after drops. */
  ghost predicate InOrder(s: State) {
    && (forall i, j :: 0 <= i < j < |s.screen| ==> s.screen[i].seqNo < s.screen[j].seqNo)
    && (s.consumer.Holding? ==> LastWritten(s) < s.consumer.item.seqNo)
    && (s.consumer.Written? ==> LastWritten(s) == s.consumer.item.seqNo)
    && (!s.consumer.Idle? ==> forall i :: 0 <= i < |s.q.items| ==> s.consumer.item.seqNo < s.q.items[i].seqNo)
    && (s.consumer.Idle? ==> LastWritten(s) <= s.q.parsed)
  }

  /** How many items the screen has seen when nothing was ever dropped. */
  function Seen(s: State): nat {
    if s.consumer.Written? then s.q.parsed + 1 else s.q.parsed
  }

  /** Without drops the screen has seen every item up to the parsed mark. */
  ghost predicate Complete(s: State) {
    !s.q.dirty && !s.q.stopped ==>
      && (!s.consumer.Idle? ==> InFlight(s))
      && Seen(s) <= |s.accepted|
      && s.screen == s.accepted[..Seen(s)]
  }

  ghost predicate Inv(s: State) {
    Contiguous(s) && WithinBudget(s.q) && Genuine(s) && InOrder(s) && Complete(s)
  }

  lemma ByteSumSnoc(items: seq<ParseItem>, it: ParseItem)
    ensures ByteSum(items + [it]) == ByteSum(items) + |it.data|
  {
    assert (items + [it])[..|items|] == items;
  }

  lemma {:induction false} ByteSumTail(items: seq<ParseItem>)
    requires items != []
    ensures ByteSum(items) == |items[0].data| + ByteSum(items[1..])
    decreases |items|
  {
    var n := |items|;
    if n == 1 {
      assert items[..0] == [] && items[1..] == [];
    } else {
      ByteSumTail(items[..n - 1]);
      assert items[..n - 1][1..] == items[1..][..n - 2];
    }
  }

  lemma SaturateKeeps(s: State)
    requires Inv(s)
    ensures Inv(s.(q := Saturate(s.q)))
  {
  }

  function Appended(s: State, data: seq<byte>, cpr: bool): State {
    s.(q := Append(s.q, data, cpr), accepted := s.accepted + [ParseItem(s.q.enqueued + 1, data, cpr)])
  }

  lemma AppendQueue(s: State, data: seq<byte>, cpr: bool)
    requires Contiguous(s) && WithinBudget(s.q) && !Overflows(s.q, data)
    ensures Contiguous(Appended(s, data, cpr)) && WithinBudget(Appended(s, data, cpr).q)
  {
    ByteSumSnoc(s.q.items, ParseItem(s.q.enqueued + 1, data, cpr));
  }

  lemma AppendGenuine(s: State, data: seq<byte>, cpr: bool)
    requires Genuine(s)
    ensures Genuine(Appended(s, data, cpr))
  {
    var s' := Appended(s, data, cpr);
    assert forall x: ParseItem :: IsAccepted(s, x) ==> IsAccepted(s', x);
    assert IsAccepted(s', ParseItem(s.q.enqueued + 1, data, cpr));
  }

  lemma AppendOrder(s: State, data: seq<byte>, cpr: bool)
    requires Genuine(s) && InOrder(s) && Complete(s)
    ensures InOrder(Appended(s, data, cpr))
  {
  }

  lemma AppendComplete(s: State, data: seq<byte>, cpr: bool)
    requires Complete(s)
    ensures Complete(Appended(s, data, cpr))
  {
    var s' := Appended(s, data, cpr);
    if !s.q.dirty && !s.q.stopped {
      assert s'.accepted[..Seen(s)] == s.accepted[..Seen(s)];
    }
  }

  lemma AppendKeeps(s: State, data: seq<byte>, cpr: bool)
    requires Inv(s) && !Overflows(s.q, data)
    ensures Inv(Appended(s, data, cpr))
  {
    AppendQueue(s, data, cpr);
    AppendGenuine(s, data, cpr);
    AppendOrder(s, data, cpr);
    AppendComplete(s, data, cpr);
  }

  lemma ProduceCases(s: State, data: seq<byte>, cpr: bool)
    requires WithinBudget(s.q)
    ensures Next(s, Produce(data, cpr)) ==
            if s.q.stopped || (data == [] && !cpr) then s
            else if !Overflows(s.q, data) then Appended(s, data, cpr)
            else if |data| <= s.q.budget then Appended(s.(q := Saturate(s.q)), data, cpr)
            else s.(q := Saturate(s.q))
  {
  }

  lemma ProduceKeeps(s: State, data: seq<byte>, cpr: bool)
    requires Inv(s)
    ensures Inv(Next(s, Produce(data, cpr)))
  {
    ProduceCases(s, data, cpr);
    if !s.q.stopped && !(data == [] && !cpr) {
      if !Overflows(s.q, data) {
        AppendKeeps(s, data, cpr);
      } else {
        SaturateKeeps(s);
        if |data| <= s.q.budget {
          AppendKeeps(s.(q := Saturate(s.q)), data, cpr);
        }
      }
    }
  }

  lemma TakeQueue(s: State)
    requires Contiguous(s) && WithinBudget(s.q) && Genuine(s) && s.consumer.Idle? && s.q.items != []
    ensures var s' := Next(s, TakeNext); Contiguous(s') && WithinBudget(s'.q) && Genuine(s')
  {
    ByteSumTail(s.q.items);
  }

  lemma TakeOrder(s: State)
    requires Contiguous(s) && InOrder(s) && Complete(s) && s.consumer.Idle? && s.q.items != []
    ensures InOrder(Next(s, TakeNext)) && Complete(Next(s, TakeNext))
  {
  }

  lemma TakeKeeps(s: State)
    requires Inv(s)
    ensures Inv(Next(s, TakeNext))
  {
    if s.consumer.Idle? && s.q.items != [] {
      TakeQueue(s);
      TakeOrder(s);
    }
  }

  lemma WriteComplete(s: State)
    requires Inv(s) && s.consumer.Holding?
    ensures Complete(Next(s, WriteScreen))
  {
    var p := s.q.parsed;
    if !s.q.dirty && !s.q.stopped {
      assert s.consumer.item.seqNo == p + 1 && IsAccepted(s, s.consumer.item);
      assert s.accepted[..p + 1] == s.accepted[..p] + [s.accepted[p]];
    }
  }

  lemma WriteOrder(s: State)
    requires InOrder(s) && s.consumer.Holding?
    ensures InOrder(Next(s, WriteScreen))
  {
    var s' := Next(s, WriteScreen);
    assert s'.screen == s.screen + [s.consumer.item];
    assert forall i :: 0 <= i < |s.screen| ==> s.screen[i].seqNo <= LastWritten(s);
  }

  lemma WriteKeeps(s: State)
    requires Inv(s)
    ensures Inv(Next(s, WriteScreen))
  {
    if s.consumer.Holding? {
      WriteComplete(s);
      WriteOrder(s);
      assert Genuine(Next(s, WriteScreen));
    }
  }

  lemma MarkQueue(s: State)
    requires Inv(s)
    ensures Contiguous(Next(s, MarkDone)) && WithinBudget(Next(s, MarkDone).q) && Genuine(Next(s, MarkDone))
  {
  }

  lemma MarkOrder(s: State)
    requires Inv(s)
    ensures InOrder(Next(s, MarkDone)) && Complete(Next(s, MarkDone))
  {
  }

  lemma MarkKeeps(s: State)
    requires Inv(s)
    ensures Inv(Next(s, MarkDone))
  {
    MarkQueue(s);
    MarkOrder(s);
  }

  lemma StopKeeps(s: State)
    requires Inv(s)
    ensures Inv(Next(s, StopAll))
  {
  }

  lemma {:induction false} Safety(budget: int, steps: seq<Step>)
    ensures Inv(Run(budget, steps))
    decreases |steps|
  {
    if steps != [] {
      var s, step := Run(budget, steps[..|steps| - 1]), steps[|steps| - 1];
      Safety(budget, steps[..|steps| - 1]);
      StepKeeps(s, step);
    }
  }

  lemma StepKeeps(s: State, step: Step)
    requires Inv(s)
    ensures Inv(Next(s, step))
  {
    match step
    case Produce(data, cpr) => ProduceKeeps(s, data, cpr);
    case TakeNext => TakeKeeps(s);
    case WriteScreen => WriteKeeps(s);
    case MarkDone => MarkKeeps(s);
    case StopAll => StopKeeps(s);
  }

  // ---- What the barrier gives its users ----

  /** A waiter never blocks on nothing: while its target is not parsed, the consumer has something to do. */
  lemma WaiterHasWork(s: State, target: nat)
    requires Inv(s) && s.q.parsed < target <= s.q.enqueued
    ensures s.q.items != [] || InFlight(s)
  {
  }

  /** When a wait returns on a queue neither dirty nor stopped, the screen has seen every item up to the target, in order. */
  lemma BarrierHolds(budget: int, steps: seq<Step>, target: nat)
    requires var s := Run(budget, steps); target <= s.q.parsed && !s.q.dirty && !s.q.stopped
    ensures var s := Run(budget, steps);
            target <= |s.screen| <= |s.accepted| && s.screen[..target] == s.accepted[..target]
  {
    Safety(budget, steps);
  }

  /** Numbers are given out once and for all: the accepted and the written items only grow. */
  lemma {:induction false} HistoryGrows(budget: int, steps: seq<Step>, more: seq<Step>)
    ensures Run(budget, steps).accepted <= Run(budget, steps + more).accepted
    ensures Run(budget, steps).screen <= Run(budget, steps + more).screen
    decreases |more|
  {
    if more == [] {
      assert steps + more == steps;
    } else {
      var init := more[..|more| - 1];
      HistoryGrows(budget, steps, init);
      assert (steps + more)[..|steps + more| - 1] == steps + init;
    }
  }

  /** What the consumer does next when left alone. */
  function ConsumerStep(s: State): Step {
    match s.consumer
    case Idle => TakeNext
    case Holding(_) => WriteScreen
    case Written(_) => MarkDone
  }

  function ConsumerRun(s: State, n: nat): State
    decreases n
  {
    if n == 0 then s else ConsumerRun(Next(s, ConsumerStep(s)), n - 1)
  }

  function WorkLeft(s: State): nat {
    3 * |s.q.items| + match s.consumer case Idle => 0 case Holding(_) => 2 case Written(_) => 1
  }

  lemma ConsumerProgress(s: State)
    requires Inv(s) && WorkLeft(s) > 0
    ensures var t := Next(s, ConsumerStep(s));
            Inv(t) && WorkLeft(t) == WorkLeft(s) - 1 && t.q.enqueued == s.q.enqueued
  {
    match s.consumer
    case Idle => TakeKeeps(s);
    case Holding(_) => WriteKeeps(s);
    case Written(_) => MarkKeeps(s);
  }

  /** However the waiter got there, finitely many consumer steps release it. */
  lemma {:induction false} ConsumerReleasesWaiters(s: State)
    requires Inv(s)
    ensures var t := ConsumerRun(s, WorkLeft(s)); t.q.parsed == t.q.enqueued == s.q.enqueued
    decreases WorkLeft(s)
  {
    if WorkLeft(s) > 0 {
      ConsumerProgress(s);
      ConsumerReleasesWaiters(Next(s, ConsumerStep(s)));
    }
  }

  // ---- Waiters and producers together ----

  function After(s: State, steps: seq<Step>): State
    decreases |steps|
  {
    if steps == [] then s else After(Next(s, steps[0]), steps[1..])
  }

  /** The consumer can do this step now. */
  predicate Effective(s: State, step: Step) {
    match step
    case TakeNext => s.consumer.Idle? && s.q.items != []
    case WriteScreen => s.consumer.Holding?
    case MarkDone => s.consumer.Written?
    case Produce(_, _) => false
    case StopAll => false
  }

  /** The steps that change something, other than those of producers and of stopping. */
  lemma EffectiveMeans(s: State, step: Step)
    requires Inv(s)
    ensures Effective(s, step) <==> (step.TakeNext? || step.WriteScreen? || step.MarkDone?) && Next(s, step) != s
  {
    match step
    case TakeNext => if s.consumer.Idle? && s.q.items != [] { assert Next(s, step).consumer.Holding?; }
    case WriteScreen => if s.consumer.Holding? { assert Next(s, step).consumer.Written?; }
    case MarkDone => if s.consumer.Written? { assert Next(s, step).consumer.Idle?; }
    case _ =>
  }

  /** How many of the steps are done by the consumer. */
  function Effort(s: State, steps: seq<Step>): nat
    decreases |steps|
  {
    if steps == [] then 0 else (if Effective(s, steps[0]) then 1 else 0) + Effort(Next(s, steps[0]), steps[1..])
  }

  /** Consumer steps until everything up to `target` is parsed: finish what is in hand, then three for each item. */
  function Debt(s: State, target: nat): int {
    if target <= s.q.parsed then 0
    else 3 * (target - s.q.parsed - Flying(s)) + match s.consumer case Idle => 0 case Holding(_) => 2 case Written(_) => 1
  }

  /** A step of the consumer pays one off; no step of anybody adds to the debt. */
  lemma DebtFalls(s: State, step: Step, target: nat)
    requires Inv(s) && target <= s.q.enqueued
    ensures var t := Next(s, step);
            && target <= t.q.enqueued && 0 <= Debt(t, target) <= Debt(s, target) <= WorkLeft(s)
            && (Effective(s, step) && Debt(s, target) > 0 ==> Debt(t, target) < Debt(s, target))
  {
  }

  /**
    In any interleaving with producers, and even when the backlog is dropped or the
    queue stopped, a waiter is released as soon as the consumer has done as many steps
    as were left when the waiter came.
  */
  lemma {:induction false} WaiterIsReleased(s: State, steps: seq<Step>, target: nat)
    requires Inv(s) && target <= s.q.enqueued && Effort(s, steps) >= Debt(s, target)
    ensures After(s, steps).q.parsed >= target
    decreases |steps|
  {
    if steps == [] {
      DebtFalls(s, StopAll, target);
    } else {
      DebtFalls(s, steps[0], target);
      StepKeeps(s, steps[0]);
      WaiterIsReleased(Next(s, steps[0]), steps[1..], target);
    }
  }
}
