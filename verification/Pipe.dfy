/** Joining two connections (pipe.go): two copying goroutines, the one that waits for them, and the
    channel of capacity two between them. One step is one operation of one goroutine, or the clock
    moving on. Of a connection it is assumed that closing it ends a copy that uses it; whether it can
    be half-closed is left open. */
module Pipe {
  import opened Options

  const GRACE: nat := 30
  const DONE_CAPACITY := 2

  /** In: from the carrier to the local connection; Out: the other way. */
  datatype Dir = In | Out

  /** Copying; about to half-close its destination; about to signal; gone. */
  datatype Copier = Copying | HalfClosing | Signalling | Exited

  datatype Main = AwaitFirst | AwaitSecond(deadline: nat) | CloseLocal | CloseCarrier | Drain | Returned

  /** `firstEnd` and `secondEnd` note when the copies ended, `closedAt` when the waiting was over,
      `returnedAt` when Pipe returned. `localHalf`, `carrierHalf`: whether the type of that connection
      has a CloseWrite; a TCP connection has, a mux stream has not. */
  datatype State = State(
    inward: Copier, outward: Copier, main: Main,
    buffered: nat, received: nat, remaining: int,
    localCloses: nat, carrierCloses: nat,
    localHalf: bool, carrierHalf: bool, localShut: bool, carrierShut: bool,
    now: nat, firstEnd: Option<nat>, secondEnd: Option<nat>, closedAt: Option<nat>, returnedAt: Option<nat>)

  function Start(now: nat, localHalf: bool, carrierHalf: bool): State {
    State(Copying, Copying, AwaitFirst, 0, 0, 2, 0, 0, localHalf, carrierHalf, false, false,
          now, None, None, None, None)
  }

  datatype Step =
    | CopyEnds(d: Dir) | HalfClose(d: Dir) | Signal(d: Dir)
    | ReceiveFirst | ReceiveSecond | Timeout | DoCloseLocal | DoCloseCarrier | DrainOne | Return
    | Tick

  function Of(s: State, d: Dir): Copier { if d == In then s.inward else s.outward }

  predicate Enabled(s: State, step: Step) {
    match step
    case CopyEnds(d) => Of(s, d) == Copying
    case HalfClose(d) => Of(s, d) == HalfClosing
    case Signal(d) => Of(s, d) == Signalling && s.buffered < DONE_CAPACITY
    case ReceiveFirst => s.main == AwaitFirst && s.buffered > 0
    case ReceiveSecond => s.main.AwaitSecond? && s.buffered > 0
    case Timeout => s.main.AwaitSecond? && s.now >= s.main.deadline
    case DoCloseLocal => s.main == CloseLocal
    case DoCloseCarrier => s.main == CloseCarrier
    case DrainOne => s.main == Drain && s.remaining > 0 && s.buffered > 0
    case Return => s.main == Drain && s.remaining <= 0
    case Tick => true
  }

  function CopyEndsStep(s: State, d: Dir): State {
    if d == In then s.(inward := HalfClosing, firstEnd := First(s), secondEnd := Second(s))
    else s.(outward := HalfClosing, firstEnd := First(s), secondEnd := Second(s))
  }

  function First(s: State): Option<nat> { if s.firstEnd.None? then Some(s.now) else s.firstEnd }

  function Second(s: State): Option<nat> { if s.firstEnd.None? then s.secondEnd else Some(s.now) }

  function HalfCloseStep(s: State, d: Dir): State {
    if d == In then s.(inward := Signalling, localShut := s.localHalf)
    else s.(outward := Signalling, carrierShut := s.carrierHalf)
  }

  function SignalStep(s: State, d: Dir): State {
    if d == In then s.(inward := Exited, buffered := s.buffered + 1)
    else s.(outward := Exited, buffered := s.buffered + 1)
  }

  function Received(s: State, m: Main, closedAt: Option<nat>): State
    requires s.buffered > 0
  {
    s.(main := m, buffered := s.buffered - 1, received := s.received + 1, remaining := s.remaining - 1,
       closedAt := closedAt)
  }

  function Apply(s: State, step: Step): State
    requires Enabled(s, step)
  {
    match step
    case CopyEnds(d) => CopyEndsStep(s, d)
    case HalfClose(d) => HalfCloseStep(s, d)
    case Signal(d) => SignalStep(s, d)
    case ReceiveFirst => Received(s, AwaitSecond(s.now + GRACE), s.closedAt)
    case ReceiveSecond => Received(s, CloseLocal, Some(s.now))
    case Timeout => s.(main := CloseLocal, closedAt := Some(s.now))
    case DoCloseLocal => s.(main := CloseCarrier, localCloses := s.localCloses + 1)
    case DoCloseCarrier => s.(main := Drain, carrierCloses := s.carrierCloses + 1)
    case DrainOne => Received(s, Drain, s.closedAt)
    case Return => s.(main := Returned, returnedAt := Some(s.now))
    case Tick => s.(now := s.now + 1)
  }

  ghost predicate ValidRun(s: State, steps: seq<Step>)
    decreases |steps|
  {
    steps != [] ==> Enabled(s, steps[0]) && ValidRun(Apply(s, steps[0]), steps[1..])
  }

  function Run(s: State, steps: seq<Step>): State
    requires ValidRun(s, steps)
    decreases |steps|
  {
    if steps == [] then s else Run(Apply(s, steps[0]), steps[1..])
  }

  // ---- under every scheduling ----

  function Ended(c: Copier): nat { if c == Copying then 0 else 1 }

  function Gone(c: Copier): nat { if c == Exited then 1 else 0 }

  predicate Shut(c: Copier) { c == Signalling || c == Exited }

  /** Every token is where it should be: a copier's is in the channel or received once it is gone. */
  predicate Counted(s: State) {
    s.buffered + s.received == Gone(s.inward) + Gone(s.outward) && s.received + s.remaining == 2
  }

  predicate HalfClosed(s: State) {
    s.localShut == (s.localHalf && Shut(s.inward)) && s.carrierShut == (s.carrierHalf && Shut(s.outward))
  }

  /** The ends of the copies are noted as they come. */
  predicate Noted(s: State) {
    && (s.firstEnd.Some? <==> Ended(s.inward) + Ended(s.outward) >= 1)
    && (s.secondEnd.Some? <==> Ended(s.inward) + Ended(s.outward) == 2)
    && (s.secondEnd.Some? ==> s.firstEnd.value <= s.secondEnd.value <= s.now)
    && (s.firstEnd.Some? ==> s.firstEnd.value <= s.now)
  }

  predicate Tokens(s: State) { Counted(s) && HalfClosed(s) && Noted(s) }

  /** The waiting is over for one of two reasons. */
  predicate MayClose(s: State) {
    && s.closedAt.Some? && s.firstEnd.Some?
    && (s.secondEnd.Some? || s.closedAt.value >= s.firstEnd.value + GRACE)
    && s.closedAt.value <= s.now
  }

  predicate Waiting(s: State) {
    match s.main
    case AwaitFirst =>
      s.received == 0 && s.localCloses == 0 && s.carrierCloses == 0 && s.closedAt.None?
    case AwaitSecond(deadline) =>
      && s.received == 1 && s.localCloses == 0 && s.carrierCloses == 0 && s.closedAt.None?
      && s.firstEnd.Some? && deadline >= s.firstEnd.value + GRACE
    case CloseLocal => s.received >= 1 && s.localCloses == 0 && s.carrierCloses == 0 && MayClose(s)
    case CloseCarrier => s.received >= 1 && s.localCloses == 1 && s.carrierCloses == 0 && MayClose(s)
    case Drain => s.received >= 1 && s.localCloses == 1 && s.carrierCloses == 1 && MayClose(s)
    case Returned => s.received == 2 && s.localCloses == 1 && s.carrierCloses == 1 && MayClose(s)
  }

  predicate Inv(s: State) { Tokens(s) && Waiting(s) }

  predicate IsCopierStep(step: Step) { step.CopyEnds? || step.HalfClose? || step.Signal? || step.Tick? }

  lemma FlagsStay(s: State, step: Step)
    requires Enabled(s, step)
    ensures Apply(s, step).localHalf == s.localHalf && Apply(s, step).carrierHalf == s.carrierHalf
  {
  }

  lemma CountedSignal(s: State, d: Dir)
    requires Counted(s) && Enabled(s, Signal(d))
    ensures Counted(SignalStep(s, d))
  {
  }

  lemma CountedReceived(s: State, m: Main, closedAt: Option<nat>)
    requires Counted(s) && s.buffered > 0
    ensures Counted(Received(s, m, closedAt))
  {
  }

  lemma CountedFrame(s: State, t: State)
    requires Counted(s) && Gone(t.inward) == Gone(s.inward) && Gone(t.outward) == Gone(s.outward)
    requires t.buffered == s.buffered && t.received == s.received && t.remaining == s.remaining
    ensures Counted(t)
  {
  }

  lemma CountedStep(s: State, step: Step)
    requires Counted(s) && Enabled(s, step)
    ensures Counted(Apply(s, step))
  {
    hide Counted;
    match step
    case Signal(d) => CountedSignal(s, d);
    case ReceiveFirst => CountedReceived(s, AwaitSecond(s.now + GRACE), s.closedAt);
    case ReceiveSecond => CountedReceived(s, CloseLocal, Some(s.now));
    case DrainOne => CountedReceived(s, Drain, s.closedAt);
    case CopyEnds(d) => CountedFrame(s, CopyEndsStep(s, d));
    case HalfClose(d) => CountedFrame(s, HalfCloseStep(s, d));
    case _ => CountedFrame(s, Apply(s, step));
  }

  lemma HalfClosedStep(s: State, step: Step)
    requires HalfClosed(s) && Enabled(s, step)
    ensures HalfClosed(Apply(s, step))
  {
  }

  lemma NotedEnds(s: State, d: Dir)
    requires Noted(s) && Enabled(s, CopyEnds(d))
    ensures Noted(CopyEndsStep(s, d))
  {
  }

  lemma NotedFrame(s: State, t: State)
    requires Noted(s) && Ended(t.inward) == Ended(s.inward) && Ended(t.outward) == Ended(s.outward)
    requires t.firstEnd == s.firstEnd && t.secondEnd == s.secondEnd && t.now >= s.now
    ensures Noted(t)
  {
  }

  lemma NotedStep(s: State, step: Step)
    requires Noted(s) && Enabled(s, step)
    ensures Noted(Apply(s, step))
  {
    hide Noted;
    match step
    case CopyEnds(d) => NotedEnds(s, d);
    case HalfClose(d) => NotedFrame(s, HalfCloseStep(s, d));
    case Signal(d) => NotedFrame(s, SignalStep(s, d));
    case _ => NotedFrame(s, Apply(s, step));
  }

  lemma TokensStep(s: State, step: Step)
    requires Tokens(s) && Enabled(s, step)
    ensures Tokens(Apply(s, step))
  {
    hide Counted, HalfClosed, Noted, Apply, Enabled;
    CountedStep(s, step);
    HalfClosedStep(s, step);
    NotedStep(s, step);
  }

  /** The copiers and the clock leave the waiting alone, but may give it reason to end. */
  lemma WaitingCopier(s: State, step: Step)
    requires Inv(s) && Enabled(s, step) && IsCopierStep(step)
    ensures Waiting(Apply(s, step))
  {
    MayCloseStays(s, step);
    hide MayClose;
  }

  lemma MayCloseStays(s: State, step: Step)
    requires MayClose(s) ==> s.firstEnd.Some?
    requires Enabled(s, step) && IsCopierStep(step)
    ensures MayClose(s) ==> MayClose(Apply(s, step))
  {
  }

  lemma WaitingMain(s: State, step: Step)
    requires Inv(s) && Enabled(s, step) && !IsCopierStep(step)
    ensures Waiting(Apply(s, step))
  {
  }

  lemma WaitingStep(s: State, step: Step)
    requires Inv(s) && Enabled(s, step)
    ensures Waiting(Apply(s, step))
  {
    hide Tokens, Waiting, Apply, Enabled;
    if IsCopierStep(step) {
      WaitingCopier(s, step);
    } else {
      WaitingMain(s, step);
    }
  }

  lemma InvStep(s: State, step: Step)
    requires Inv(s) && Enabled(s, step)
    ensures Inv(Apply(s, step))
  {
    hide Tokens, Waiting, Apply, Enabled;
    TokensStep(s, step);
    WaitingStep(s, step);
  }

  lemma {:induction false} InvRun(s: State, steps: seq<Step>)
    requires Inv(s) && ValidRun(s, steps)
    ensures Inv(Run(s, steps))
    ensures Run(s, steps).localHalf == s.localHalf && Run(s, steps).carrierHalf == s.carrierHalf
    decreases |steps|
  {
    hide Inv, Enabled, Apply;
    if steps != [] {
      InvStep(s, steps[0]);
      FlagsStay(s, steps[0]);
      InvRun(Apply(s, steps[0]), steps[1..]);
    }
  }

  /** What every run of Pipe keeps, whatever the scheduling: a signal never blocks; each connection is
      closed at most once, and none before both copies have ended or a grace period has passed since
      the first did; when Pipe returns both goroutines are gone, their signals consumed, both
      connections closed once. */
  lemma PipeSafety(start: nat, localHalf: bool, carrierHalf: bool, steps: seq<Step>)
    requires ValidRun(Start(start, localHalf, carrierHalf), steps)
    ensures var s := Run(Start(start, localHalf, carrierHalf), steps);
            && (forall d :: Of(s, d) == Signalling ==> Enabled(s, Signal(d)))
            && s.localCloses <= 1 && s.carrierCloses <= 1
            && (s.localCloses + s.carrierCloses > 0 ==>
                  s.firstEnd.Some? && (s.secondEnd.Some? || s.now >= s.firstEnd.value + GRACE))
            && (s.main == Returned ==>
                  && s.inward == Exited && s.outward == Exited && s.buffered == 0 && s.remaining == 0
                  && s.localCloses == 1 && s.carrierCloses == 1
                  && s.localShut == localHalf && s.carrierShut == carrierHalf)
            && (s.localShut ==> localHalf && s.inward != Copying)
            && (s.carrierShut ==> carrierHalf && s.outward != Copying)
  {
    hide ValidRun, Run;
    InvRun(Start(start, localHalf, carrierHalf), steps);
  }

  // ---- progress ----

  /** Both connections are closed, so a copy still running cannot go on. */
  predicate Closed(s: State) { s.localCloses > 0 && s.carrierCloses > 0 }

  /** Some goroutine can do its next operation, or a copy must end because of the closes. */
  ghost predicate Urgent(s: State) {
    || (exists step: Step :: Enabled(s, step) && !step.Tick? && !step.CopyEnds?)
    || (exists d :: Of(s, d) == Copying && Closed(s))
  }

  /** Nothing is left to do exactly when Pipe has returned, or both copies are still at work, or one
      of them is and its grace period is running. There is no deadlock. */
  lemma IdleExactly(s: State)
    requires Inv(s)
    ensures !Urgent(s) <==>
            || s.main == Returned
            || (s.main == AwaitFirst && s.inward == Copying && s.outward == Copying)
            || (s.main.AwaitSecond? && s.now < s.main.deadline && s.firstEnd.Some? && s.secondEnd.None?
                && (s.inward == Exited || s.outward == Exited))
  {
    hide MayClose, HalfClosed;
    assert forall d :: Enabled(s, Signal(d)) <==> Of(s, d) == Signalling && s.buffered < DONE_CAPACITY;
    assert forall d :: Enabled(s, HalfClose(d)) <==> Of(s, d) == HalfClosing;
    forall step: Step | !step.Tick? && !step.CopyEnds? && Enabled(s, step)
      ensures Urgent(s)
    {
    }
    if !Urgent(s) {
      assert !Enabled(s, Signal(In)) && !Enabled(s, Signal(Out));
      assert !Enabled(s, HalfClose(In)) && !Enabled(s, HalfClose(Out));
      assert !Enabled(s, ReceiveFirst) && !Enabled(s, ReceiveSecond) && !Enabled(s, Timeout);
      assert !Enabled(s, DoCloseLocal) && !Enabled(s, DoCloseCarrier);
      assert !Enabled(s, DrainOne) && !Enabled(s, Return);
      assert !(Of(s, In) == Copying && Closed(s)) && !(Of(s, Out) == Copying && Closed(s));
    }
  }

  function CopierWork(c: Copier): nat {
    match c case Copying => 3 case HalfClosing => 2 case Signalling => 1 case Exited => 0
  }

  function MainWork(m: Main): nat {
    match m
    case AwaitFirst => 5
    case AwaitSecond(_) => 4
    case CloseLocal => 3
    case CloseCarrier => 2
    case Drain => 1
    case Returned => 0
  }

  /** Operations left, at most. */
  function Work(s: State): int {
    CopierWork(s.inward) + CopierWork(s.outward) + MainWork(s.main) + (2 - s.received)
  }

  function Operations(steps: seq<Step>): nat {
    if steps == [] then 0 else (if steps[0].Tick? then 0 else 1) + Operations(steps[1..])
  }

  lemma WorkStep(s: State, step: Step)
    requires Inv(s) && Enabled(s, step)
    ensures if step.Tick? then Work(Apply(s, step)) == Work(s) else Work(Apply(s, step)) < Work(s)
  {
    hide MayClose;
  }

  lemma WorkLeft(s: State)
    requires Inv(s)
    ensures Work(s) >= 0
  {
  }

  lemma {:induction false} WorkRun(s: State, steps: seq<Step>)
    requires Inv(s) && ValidRun(s, steps)
    ensures Inv(Run(s, steps)) && Operations(steps) + Work(Run(s, steps)) <= Work(s)
    decreases |steps|
  {
    hide Inv, Enabled, Apply, Work;
    if steps != [] {
      InvStep(s, steps[0]);
      WorkStep(s, steps[0]);
      WorkRun(Apply(s, steps[0]), steps[1..]);
    }
  }

  /** No run has more than thirteen operations: with IdleExactly, Pipe returns once a copy ends. */
  lemma PipeTerminates(start: nat, localHalf: bool, carrierHalf: bool, steps: seq<Step>)
    requires ValidRun(Start(start, localHalf, carrierHalf), steps)
    ensures Operations(steps) <= 13
  {
    WorkRun(Start(start, localHalf, carrierHalf), steps);
    WorkLeft(Run(Start(start, localHalf, carrierHalf), steps));
  }

  // ---- when every goroutine does what it can before the clock moves ----

  ghost predicate PromptRun(s: State, steps: seq<Step>)
    decreases |steps|
  {
    steps != [] ==>
      && Enabled(s, steps[0])
      && (steps[0].Tick? ==> !Urgent(s))
      && PromptRun(Apply(s, steps[0]), steps[1..])
  }

  predicate InTime(s: State) {
    && (s.main == AwaitFirst && s.firstEnd.Some? ==> s.now == s.firstEnd.value)
    && (s.main.AwaitSecond? && s.firstEnd.Some? ==>
          s.main.deadline == s.firstEnd.value + GRACE && s.now <= s.main.deadline)
    && (s.main != Returned && s.firstEnd.Some? ==> s.now <= s.firstEnd.value + GRACE)
    && (s.main != Returned && s.secondEnd.Some? ==> s.now == s.secondEnd.value)
    && (s.main == Returned ==>
          && s.returnedAt == s.secondEnd && s.firstEnd.Some? && s.secondEnd.Some?
          && s.secondEnd.value <= s.firstEnd.value + GRACE)
  }

  lemma InTimeTick(s: State)
    requires Inv(s) && InTime(s) && !Urgent(s)
    ensures InTime(Apply(s, Tick))
  {
    IdleExactly(s);
  }

  lemma InTimeEnds(s: State, d: Dir)
    requires Noted(s) && InTime(s) && Enabled(s, CopyEnds(d))
    requires s.main == Returned ==> s.secondEnd.Some?
    requires s.main != AwaitFirst ==> s.firstEnd.Some?
    ensures InTime(CopyEndsStep(s, d))
  {
    assert s.secondEnd.None?;
  }

  lemma InTimeFrame(s: State, t: State)
    requires InTime(s) && t.main == s.main && t.now == s.now
    requires t.firstEnd == s.firstEnd && t.secondEnd == s.secondEnd && t.returnedAt == s.returnedAt
    ensures InTime(t)
  {
  }

  lemma InTimeCopier(s: State, step: Step)
    requires Inv(s) && InTime(s) && Enabled(s, step) && IsCopierStep(step) && !step.Tick?
    ensures InTime(Apply(s, step))
  {
    assert s.main == Returned ==> s.secondEnd.Some?;
    assert s.main != AwaitFirst ==> s.firstEnd.Some?;
    hide InTime, Waiting, Counted, HalfClosed, Noted;
    match step
    case CopyEnds(d) => InTimeEnds(s, d);
    case HalfClose(d) => InTimeFrame(s, HalfCloseStep(s, d));
    case Signal(d) => InTimeFrame(s, SignalStep(s, d));
  }

  lemma InTimeMain(s: State, step: Step)
    requires Inv(s) && InTime(s) && Enabled(s, step) && !IsCopierStep(step)
    ensures InTime(Apply(s, step))
  {
    hide MayClose;
  }

  lemma InTimeStep(s: State, step: Step)
    requires Inv(s) && InTime(s) && Enabled(s, step) && !step.Tick?
    ensures InTime(Apply(s, step))
  {
    hide Inv, InTime, Apply, Enabled;
    if IsCopierStep(step) {
      InTimeCopier(s, step);
    } else {
      InTimeMain(s, step);
    }
  }

  lemma {:induction false} InTimeRun(s: State, steps: seq<Step>)
    requires Inv(s) && InTime(s) && PromptRun(s, steps)
    ensures ValidRun(s, steps) && Inv(Run(s, steps)) && InTime(Run(s, steps))
    decreases |steps|
  {
    hide Inv, InTime, Apply, Urgent;
    if steps != [] {
      InvStep(s, steps[0]);
      if steps[0].Tick? {
        InTimeTick(s);
      } else {
        InTimeStep(s, steps[0]);
      }
      InTimeRun(Apply(s, steps[0]), steps[1..]);
    }
  }

  /** Pipe waits for at most one grace period: later than that after the first copy ended it has
      returned, and it returns at the moment the second copy ends. */
  lemma OneGraceAtMost(start: nat, localHalf: bool, carrierHalf: bool, steps: seq<Step>)
    requires PromptRun(Start(start, localHalf, carrierHalf), steps)
    ensures ValidRun(Start(start, localHalf, carrierHalf), steps)
    ensures var s := Run(Start(start, localHalf, carrierHalf), steps);
            && (s.firstEnd.Some? && s.now > s.firstEnd.value + GRACE ==> s.main == Returned)
            && (s.main == Returned ==>
                  s.secondEnd.Some? && s.returnedAt == s.secondEnd && s.firstEnd.Some?
                  && s.secondEnd.value <= s.firstEnd.value + GRACE)
  {
    hide PromptRun, ValidRun, Run, Inv;
    assert Inv(Start(start, localHalf, carrierHalf)) by {
      StartInv(start, localHalf, carrierHalf);
    }
    InTimeRun(Start(start, localHalf, carrierHalf), steps);
  }

  lemma StartInv(start: nat, localHalf: bool, carrierHalf: bool)
    ensures Inv(Start(start, localHalf, carrierHalf))
  {
  }
}
