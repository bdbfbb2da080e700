/**
  The warmup worker and the processes that hand it more tools. All of them read,
  change and rewrite one status file under a lock, so each change is one step.
*/
module WarmupJob {

  /** The part of the status file that matters here. */
  datatype Status = Status(running: bool, tool: string, remaining: seq<string>, queued: seq<string>)

  /**
    Where the worker is: at the top of its loop, after it took the queue, warming a
    tool, done, or stopped by a failed tool or a cancellation.
  */
  datatype Phase = Top | Taken | Warming(tool: string) | Complete | Stopped

  /** The file, what the worker remembers, and what was warmed and added so far. */
  datatype State = State(status: Status, remaining: seq<string>, phase: Phase, warmed: set<string>, added: set<string>)

  // ---- Lists without repetition ----

  /** `t` is one of the tools, trimmed. */
  predicate Offers(tools: seq<string>, trim: string -> string, t: string) {
    exists i :: 0 <= i < |tools| && trim(tools[i]) == t
  }

  function AppendUnique(dst: seq<string>, tools: seq<string>, trim: string -> string): (r: seq<string>)
    ensures dst <= r
    ensures forall t :: t in r <==> t in dst || (t != "" && Offers(tools, trim, t))
    ensures forall i, j :: 0 <= i < j < |r| && |dst| <= j ==> r[i] != r[j]
  {
    if tools == [] then dst
    else
      var n := |tools| - 1;
      var r := AppendUnique(dst, tools[..n], trim);
      var t := trim(tools[n]);
      if t == "" || t in r then r else r + [t]
  }

  /** Tools that are current, remaining or queued are not added again. */
  predicate Known(st: Status, t: string) {
    t == st.tool || t in st.remaining || t in st.queued
  }

  /** What a call of Enqueue may do to a live job. */
  ghost predicate Enqueued(st: Status, tools: seq<string>, trim: string -> string, st': Status, added: seq<string>) {
    && st' == st.(queued := st.queued + added)
    && (forall t :: t in added ==> t != "" && trim(t) == t && !Known(st, t))
    && (forall i :: 0 <= i < |tools| && trim(tools[i]) != "" ==> Known(st', trim(tools[i])))
  }

  /** A job that is not live refuses; else every tool named is current, remaining or queued afterwards. */
  method Enqueue(st: Status, live: bool, tools: seq<string>, trim: string -> string) returns (st': Status, added: seq<string>, ok: bool)
    requires forall t :: trim(trim(t)) == trim(t)
    ensures ok == live
    ensures !ok ==> st' == st && added == []
    ensures ok ==> Enqueued(st, tools, trim, st', added)
  {
    st', added, ok := st, [], live;
    if !live {
      return;
    }
    for i := 0 to |tools|
      invariant Enqueued(st, tools[..i], trim, st', added)
    {
      var t := trim(tools[i]);
      if t != "" && !Known(st', t) {
        st' := st'.(queued := st'.queued + [t]);
        added := added + [t];
      }
    }
    assert tools[..|tools|] == tools;
  }

  // ---- Runs ----

  datatype Step =
    | EnqueueStep(tools: seq<string>, added: seq<string>)
    | Progress
    | Take
    | FinishCheck
    | Pick
    | Warmed
    | FailTool
    | Cancel

  ghost predicate Next(trim: string -> string, s: State, step: Step, s': State) {
    match step
    case EnqueueStep(tools, added) =>
      && s.status.running
      && Enqueued(s.status, tools, trim, s'.status, added)
      && s' == s.(status := s'.status, added := s.added + set t | t in added)
    case Progress => s.phase.Warming? && s' == s.(status := s.status.(running := true, tool := s.phase.tool))
    case Take =>
      && s.phase.Top?
      && s' == s.(status := s.status.(queued := []), remaining := AppendUnique(s.remaining, s.status.queued, trim), phase := Taken)
    case FinishCheck =>
      && s.phase.Taken? && s.remaining == []
      && var remaining := AppendUnique(s.remaining, s.status.queued, trim);
      if remaining != [] then s' == s.(status := s.status.(queued := []), remaining := remaining, phase := Top)
      else s' == s.(status := s.status.(queued := [], remaining := [], running := false), phase := Complete)
    case Pick =>
      && s.phase.Taken? && s.remaining != []
      && s' == s.(status := s.status.(running := true, tool := s.remaining[0], remaining := s.remaining[1..]),
               remaining := s.remaining[1..], phase := Warming(s.remaining[0]))
    case Warmed => s.phase.Warming? && s' == s.(warmed := s.warmed + {s.phase.tool}, phase := Top)
    case FailTool => s.phase.Warming? && s' == s.(status := s.status.(running := false), remaining := [], phase := Stopped)
    case Cancel => s.phase.Top? && s' == s.(status := s.status.(running := false), remaining := [], phase := Stopped)
  }

  /** The tool is warmed, or on file as the current one, or to come. */
  predicate OnFile(s: State, t: string) {
    t in s.warmed || Known(s.status, t)
  }

  /** While the worker lives it has every added tool on file or in mind; while it warms one, all of them on file. */
  ghost predicate Inv(trim: string -> string, s: State) {
    && (forall t :: t in s.status.queued ==> t != "" && trim(t) == t)
    && (!s.phase.Stopped? ==>
          forall t :: t in s.added ==> t in s.warmed || s.phase == Warming(t) || t in s.remaining || t in s.status.queued)
    && (s.phase.Warming? ==> s.status.tool == s.phase.tool && s.status.remaining == s.remaining)
    && (s.phase.Complete? ==> !s.status.running && s.remaining == [] && s.status.queued == [])
    && (s.phase.Stopped? ==> !s.status.running)
  }

  lemma NextInv(trim: string -> string, s: State, step: Step, s': State)
    requires Inv(trim, s) && Next(trim, s, step, s')
    ensures Inv(trim, s') && s.added <= s'.added && s.warmed <= s'.warmed
  {
    match step
    case Take => TakenAreRemaining(trim, s);
    case FinishCheck => TakenAreRemaining(trim, s);
    case Pick => assert s.remaining == [s.remaining[0]] + s.remaining[1..];
    case _ =>
  }

  lemma TakenAreRemaining(trim: string -> string, s: State)
    requires Inv(trim, s)
    ensures forall t :: t in s.remaining || t in s.status.queued ==> t in AppendUnique(s.remaining, s.status.queued, trim)
  {
    forall t | t in s.status.queued ensures Offers(s.status.queued, trim, t) {
      var i :| 0 <= i < |s.status.queued| && s.status.queued[i] == t;
      assert trim(s.status.queued[i]) == t;
    }
  }

  /** The worker starts with the tools it was given, and nobody has added any yet. */
  ghost predicate Initial(s: State) {
    s.phase.Top? && s.status.queued == [] && s.warmed == {} && s.added == {}
  }

  ghost predicate Run(trim: string -> string, states: seq<State>, steps: seq<Step>) {
    && |states| == |steps| + 1 && Initial(states[0])
    && forall i :: 0 <= i < |steps| ==> Next(trim, states[i], steps[i], states[i + 1])
  }

  lemma {:induction false} RunInv(trim: string -> string, states: seq<State>, steps: seq<Step>, n: nat)
    requires Run(trim, states, steps) && n < |states|
    ensures Inv(trim, states[n])
    decreases n
  {
    if n > 0 {
      RunInv(trim, states, steps, n - 1);
      NextInv(trim, states[n - 1], steps[n - 1], states[n]);
    }
  }

  /**
    Until the worker stops, a tool that was added is warmed, current, remaining or
    queued, and once the worker records completion, it is warmed.
  */
  lemma NoToolIsLost(trim: string -> string, states: seq<State>, steps: seq<Step>, n: nat, t: string)
    requires Run(trim, states, steps) && n < |states| && t in states[n].added && !states[n].phase.Stopped?
    ensures var s := states[n];
            && (t in s.warmed || s.phase == Warming(t) || t in s.remaining || t in s.status.queued)
            && (s.phase.Complete? ==> t in s.warmed)
  {
    RunInv(trim, states, steps, n);
  }

  /** When a tool fails, every tool that was added is warmed or still on file. */
  lemma FailureLosesNothing(trim: string -> string, states: seq<State>, steps: seq<Step>, n: nat, t: string)
    requires Run(trim, states, steps) && n < |steps| && steps[n].FailTool? && t in states[n + 1].added
    ensures OnFile(states[n + 1], t)
  {
    RunInv(trim, states, steps, n);
    assert Next(trim, states[n], steps[n], states[n + 1]);
  }

  /** The worker's last step before `n` was the check for more work at `m`; others only added tools since. */
  predicate CheckedAt(steps: seq<Step>, m: nat, n: nat) {
    && m < n <= |steps| && steps[m].FinishCheck?
    && forall i :: m < i < n ==> steps[i].EnqueueStep?
  }

  ghost predicate JustChecked(steps: seq<Step>, n: nat) {
    exists m: nat :: CheckedAt(steps, m, n)
  }

  lemma StillChecked(steps: seq<Step>, n: nat)
    requires 0 < n <= |steps| && steps[n - 1].EnqueueStep? && JustChecked(steps, n - 1)
    ensures JustChecked(steps, n)
  {
    var m: nat :| CheckedAt(steps, m, n - 1);
    assert CheckedAt(steps, m, n);
  }

  predicate AddedSince(steps: seq<Step>, m: nat, n: nat, t: string)
    requires n <= |steps|
  {
    exists i :: m < i < n && steps[i].EnqueueStep? && t in steps[i].added
  }

  /** The check takes `t` off the queue, and the file does not name it anywhere else. */
  predicate Forgets(s: State, t: string) {
    t in s.status.queued && t !in s.warmed && t != s.status.tool && t !in s.status.remaining
  }

  /** At the top of the loop, unless it comes from that check, the worker has every added tool on file. */
  lemma {:induction false} TopOnFile(trim: string -> string, states: seq<State>, steps: seq<Step>, n: nat)
    requires Run(trim, states, steps) && n <= |steps| && states[n].phase.Top?
    requires !JustChecked(steps, n)
    ensures forall t :: t in states[n].added ==> OnFile(states[n], t)
    decreases n
  {
    if n > 0 {
      assert Next(trim, states[n - 1], steps[n - 1], states[n]);
      RunInv(trim, states, steps, n - 1);
      assert !CheckedAt(steps, n - 1, n);
      if steps[n - 1].EnqueueStep? {
        if JustChecked(steps, n - 1) {
          StillChecked(steps, n);
        }
        TopOnFile(trim, states, steps, n - 1);
      }
    }
  }

  /** After the check the file names what it named before, less the queue, and what was added since. */
  lemma {:induction false} SinceCheck(trim: string -> string, states: seq<State>, steps: seq<Step>, m: nat, n: nat, t: string)
    requires Run(trim, states, steps) && CheckedAt(steps, m, n) && states[n].phase.Top?
    ensures states[n].warmed == states[m].warmed && states[n].status.tool == states[m].status.tool
    ensures states[n].status.remaining == states[m].status.remaining
    ensures t in states[n].status.queued <==> AddedSince(steps, m, n, t)
    ensures t in states[n].added <==> t in states[m].added || AddedSince(steps, m, n, t)
    decreases n
  {
    assert Next(trim, states[n - 1], steps[n - 1], states[n]);
    if m < n - 1 {
      SinceCheck(trim, states, steps, m, n - 1, t);
      assert AddedSince(steps, m, n, t) <==> AddedSince(steps, m, n - 1, t) || t in steps[n - 1].added;
    }
  }

  /** Unless the worker has just looked for more work, a cancellation loses nothing. */
  lemma CancelLosesNothing(trim: string -> string, states: seq<State>, steps: seq<Step>, n: nat, t: string)
    requires Run(trim, states, steps) && n < |steps| && steps[n].Cancel? && t in states[n + 1].added
    requires !JustChecked(steps, n)
    ensures OnFile(states[n + 1], t)
  {
    assert Next(trim, states[n], steps[n], states[n + 1]);
    TopOnFile(trim, states, steps, n);
  }

  /**
    A cancellation loses exactly the tools that the check just before took off the
    queue, that the file does not name elsewhere, and that nobody added again.
  */
  lemma CancelLosesIff(trim: string -> string, states: seq<State>, steps: seq<Step>, n: nat, t: string)
    requires Run(trim, states, steps) && n < |steps| && steps[n].Cancel? && t in states[n + 1].added
    ensures !OnFile(states[n + 1], t)
       <==> exists m: nat :: CheckedAt(steps, m, n) && Forgets(states[m], t) && !AddedSince(steps, m, n, t)
  {
    assert Next(trim, states[n], steps[n], states[n + 1]);
    if JustChecked(steps, n) {
      var m: nat :| CheckedAt(steps, m, n);
      SinceCheck(trim, states, steps, m, n, t);
      RunInv(trim, states, steps, m);
      assert Next(trim, states[m], steps[m], states[m + 1]);
      assert forall k: nat :: CheckedAt(steps, k, n) ==> k == m;
    } else {
      CancelLosesNothing(trim, states, steps, n, t);
    }
  }

  function Same(t: string): string {
    t
  }

  lemma AppendOne(t: string)
    requires t != ""
    ensures AppendUnique([], [], Same) == [] && AppendUnique([], [t], Same) == [t]
  {
    assert [t][..0] == [];
  }

  /** It happens: a tool that comes between taking the queue and the last check is taken, and forgotten on cancellation. */
  lemma CancelLosesATool(t: string) returns (states: seq<State>, steps: seq<Step>)
    requires t != ""
    ensures Run(Same, states, steps) && t in states[|steps|].added && !OnFile(states[|steps|], t)
  {
    var idle := Status(true, "", [], []);
    var s0 := State(idle, [], Top, {}, {});
    var s1 := s0.(phase := Taken);
    var s2 := s1.(status := idle.(queued := [t]), added := {t});
    var s3 := s2.(status := idle, remaining := [t], phase := Top);
    var s4 := s3.(status := idle.(running := false), remaining := [], phase := Stopped);
    states, steps := [s0, s1, s2, s3, s4], [Take, EnqueueStep([t], [t]), FinishCheck, Cancel];
    AppendOne(t);
    LosingEnqueue(t, s1, s2);
    assert Next(Same, s0, steps[0], s1) && Next(Same, s2, steps[2], s3) && Next(Same, s3, steps[3], s4);
  }

  lemma LosingEnqueue(t: string, s: State, s': State)
    requires t != "" && s.status == Status(true, "", [], []) && s.added == {}
    requires s' == s.(status := s.status.(queued := [t]), added := {t})
    ensures Next(Same, s, EnqueueStep([t], [t]), s')
  {
    assert (set x | x in [t]) == {t};
  }

  // ---- Order ----

  /** `a` comes before every `b` of the list. */
  ghost predicate Before(list: seq<string>, a: string, b: string) {
    a != b && exists i :: 0 <= i < |list| && list[i] == a && b !in list[..i]
  }

  lemma BeforeMore(list: seq<string>, list': seq<string>, a: string, b: string)
    requires Before(list, a, b) && list <= list'
    ensures Before(list', a, b)
  {
    var i :| 0 <= i < |list| && list[i] == a && b !in list[..i];
    assert list'[i] == a && list'[..i] == list[..i];
  }

  lemma BeforeRest(list: seq<string>, a: string, b: string)
    requires Before(list, a, b)
    ensures list != [] && list[0] != b && (list[0] != a ==> Before(list[1..], a, b))
  {
    var i :| 0 <= i < |list| && list[i] == a && b !in list[..i];
    if i > 0 {
      assert list[..i][0] == list[0];
      assert list[1..][i - 1] == a && list[1..][..i - 1] == list[..i][1..];
    }
  }

  /** One step: `a` stays in front, or is picked, or the worker stops. */
  lemma StaysInFront(trim: string -> string, s: State, step: Step, s': State, a: string, b: string)
    requires Next(trim, s, step, s') && Before(s.remaining, a, b)
    ensures Before(s'.remaining, a, b) || (step.Pick? && s'.phase == Warming(a)) || s'.phase.Stopped?
  {
    match step
    case Take => BeforeMore(s.remaining, s'.remaining, a, b);
    case Pick => BeforeRest(s.remaining, a, b);
    case _ =>
  }

  lemma {:induction false} StoppedStays(trim: string -> string, states: seq<State>, steps: seq<Step>, n: nat, m: nat)
    requires Run(trim, states, steps) && n <= m < |states| && states[n].phase.Stopped?
    ensures states[m].phase.Stopped?
    decreases m
  {
    if n < m {
      StoppedStays(trim, states, steps, n, m - 1);
      assert Next(trim, states[m - 1], steps[m - 1], states[m]);
    }
  }

  /** No tool overtakes another: when `b` is picked, an `a` that the worker had before it has been picked already. */
  lemma {:induction false} NoOvertaking(trim: string -> string, states: seq<State>, steps: seq<Step>, n: nat, m: nat, a: string, b: string)
    requires Run(trim, states, steps) && n <= m < |steps| && Before(states[n].remaining, a, b)
    requires steps[m].Pick? && states[m + 1].phase == Warming(b)
    ensures exists k :: n <= k < m && steps[k].Pick? && states[k + 1].phase == Warming(a)
    decreases m - n
  {
    assert Next(trim, states[n], steps[n], states[n + 1]);
    BeforeRest(states[n].remaining, a, b);
    StaysInFront(trim, states[n], steps[n], states[n + 1], a, b);
    if states[n + 1].phase.Stopped? {
      StoppedStays(trim, states, steps, n + 1, m + 1);
    } else if !(steps[n].Pick? && states[n + 1].phase == Warming(a)) {
      NoOvertaking(trim, states, steps, n + 1, m, a, b);
    }
  }

  /** Completion is final: a request that comes later is refused, and no other step is left. */
  lemma CompletionIsFinal(trim: string -> string, s: State, step: Step, s': State)
    requires Inv(trim, s) && s.phase.Complete?
    ensures !Next(trim, s, step, s')
  {
  }
}
