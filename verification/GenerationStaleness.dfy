/** Carriers of dead generations at the fine grain: exactly which runs never list one, and what a
    teardown removes while everything else goes on. */
module GenerationStaleness {
  import opened Options
  import opened Generation
  import opened GenerationPool

  // ---- exactly the late admissions ----

  /** No queued carrier is of a generation whose queue was drained, and no session of one whose
      sessions were dropped. */
  predicate NoStale(s: State) {
    && (forall x :: x in s.box.poolQueue ==> x.epoch !in s.settled)
    && (forall x :: x in s.box.sessions ==> x.epoch !in s.torn)
  }

  /** An admission that lists a carrier after the teardown of its generation has been past its list. */
  predicate Late(cfg: Config, s: State, step: Step)
    requires Enabled(cfg, s, step)
  {
    step.Admit? && !cfg.kind.DirectClient? &&
    match cfg.mode
    case Tcp => |s.box.poolQueue| < QUEUE_CAP && s.entering[step.p] in s.settled
    case TcpMux => s.entering[step.p] in s.torn
    case Udp => false
  }

  lemma StaleByLate(cfg: Config, s: State, step: Step)
    requires SlotInv(cfg.kind, s) && NoStale(s) && Enabled(cfg, s, step)
    ensures NoStale(Apply(cfg, s, step)) <==> !Late(cfg, s, step)
  {
    hide SlotInv;
    match step
    case Admit(p) => AdmissionStale(cfg, s, p);
    case Prune(closed) => KeptAreListed(s.box.sessions, closed);
    case _ =>
  }

  lemma AdmissionStale(cfg: Config, s: State, p: nat)
    requires NoStale(s) && Enabled(cfg, s, Admit(p))
    ensures NoStale(Apply(cfg, s, Admit(p))) <==> !Late(cfg, s, Admit(p))
  {
    var c := Carrier(p, s.entering[p]);
    var t := Apply(cfg, s, Admit(p));
    if !cfg.kind.DirectClient? {
      if cfg.mode.Tcp? && |s.box.poolQueue| < QUEUE_CAP {
        assert t.box.poolQueue[|s.box.poolQueue|] == c;
      } else if cfg.mode.TcpMux? {
        assert t.box.sessions[|s.box.sessions|] == c;
      }
    }
  }

  lemma {:induction false} KeptAreListed(sessions: seq<Carrier>, closed: set<nat>)
    ensures forall x :: x in Keep(sessions, closed) ==> x in sessions
  {
    if sessions != [] {
      KeptAreListed(sessions[1..], closed);
      assert sessions == [sessions[0]] + sessions[1..];
    }
  }

  predicate AlwaysNoStale(cfg: Config, s: State, steps: seq<Step>)
    requires IsRun(cfg, s, steps)
    decreases |steps|
  {
    NoStale(s) && (steps == [] || AlwaysNoStale(cfg, Apply(cfg, s, steps[0]), steps[1..]))
  }

  predicate NoneLate(cfg: Config, s: State, steps: seq<Step>)
    requires IsRun(cfg, s, steps)
    decreases |steps|
  {
    steps == [] || (!Late(cfg, s, steps[0]) && NoneLate(cfg, Apply(cfg, s, steps[0]), steps[1..]))
  }

  lemma {:induction false} NoStaleFrom(cfg: Config, s: State, steps: seq<Step>)
    requires SlotInv(cfg.kind, s) && NoStale(s) && IsRun(cfg, s, steps)
    ensures AlwaysNoStale(cfg, s, steps) <==> NoneLate(cfg, s, steps)
    decreases |steps|
  {
    hide SlotInv, NoStale, Apply, Enabled, Late;
    if steps != [] {
      var t := Apply(cfg, s, steps[0]);
      SlotStep(cfg, s, steps[0]);
      StaleByLate(cfg, s, steps[0]);
      if NoStale(t) {
        NoStaleFrom(cfg, t, steps[1..]);
      }
    }
  }

  /** Generation safety at the finest grain, exactly: throughout a run no carrier is listed behind a
      teardown that has been past its list if and only if no admission of the run is late. */
  lemma NoStaleExactly(cfg: Config, steps: seq<Step>)
    requires IsRun(cfg, INIT, steps)
    ensures AlwaysNoStale(cfg, INIT, steps) <==> NoneLate(cfg, INIT, steps)
  {
    NoStaleFrom(cfg, INIT, steps);
  }

  lemma {:induction false} NoStaleAtEnd(cfg: Config, s: State, steps: seq<Step>)
    requires IsRun(cfg, s, steps) && AlwaysNoStale(cfg, s, steps)
    ensures NoStale(Exec(cfg, s, steps))
    decreases |steps|
  {
    hide NoStale, Apply, Enabled;
    if steps != [] {
      NoStaleAtEnd(cfg, Apply(cfg, s, steps[0]), steps[1..]);
    }
  }

  /** Without a late admission nothing a user could be handed is of a torn-down generation. */
  lemma NothingTornListed(cfg: Config, steps: seq<Step>)
    requires IsRun(cfg, INIT, steps) && NoneLate(cfg, INIT, steps)
    ensures var s := Exec(cfg, INIT, steps);
            forall x :: x in Listed(s.box) ==> x.epoch !in s.torn
  {
    NoStaleExactly(cfg, steps);
    NoStaleAtEnd(cfg, INIT, steps);
    SlotInvariantHolds(cfg, INIT, steps);
  }

  // ---- queued flows of mode udp ----

  /** No queued flow is of a generation that has ended. */
  predicate FlowsFresh(s: State) { forall x :: x in s.flowCh ==> x.epoch !in s.ended }

  /** A generation ends with one of its flows queued, or a flow is queued after its generation's end. */
  predicate Strands(cfg: Config, s: State, step: Step)
    requires Enabled(cfg, s, step)
  {
    || (step.Clear? && exists x :: x in s.flowCh && x.epoch == s.controls[step.c].epoch)
    || (step.QueueFlow? && |s.flowCh| < QUEUE_CAP && s.entering[step.p] in s.ended)
  }

  lemma FlowsByStranding(cfg: Config, s: State, step: Step)
    requires FlowsFresh(s) && Enabled(cfg, s, step)
    ensures FlowsFresh(Apply(cfg, s, step)) <==> !Strands(cfg, s, step)
  {
    var t := Apply(cfg, s, step);
    match step
    case QueueFlow(p) =>
      if |s.flowCh| < QUEUE_CAP {
        assert t.flowCh[|s.flowCh|] == Carrier(p, s.entering[p]);
      }
    case Clear(c) => assert t.flowCh == s.flowCh;
    case ClaimFlow =>
    case _ => assert t.flowCh == s.flowCh && t.ended == s.ended;
  }

  predicate AlwaysFlowsFresh(cfg: Config, s: State, steps: seq<Step>)
    requires IsRun(cfg, s, steps)
    decreases |steps|
  {
    FlowsFresh(s) && (steps == [] || AlwaysFlowsFresh(cfg, Apply(cfg, s, steps[0]), steps[1..]))
  }

  predicate NoneStrands(cfg: Config, s: State, steps: seq<Step>)
    requires IsRun(cfg, s, steps)
    decreases |steps|
  {
    steps == [] || (!Strands(cfg, s, steps[0]) && NoneStrands(cfg, Apply(cfg, s, steps[0]), steps[1..]))
  }

  /** The fine-grain form of mode udp: throughout a run every queued flow's generation is still on if
      and only if no generation ends with a flow of its own queued and no flow is queued after the end
      of its generation. */
  lemma {:induction false} FlowsFreshExactly(cfg: Config, s: State, steps: seq<Step>)
    requires FlowsFresh(s) && IsRun(cfg, s, steps)
    ensures AlwaysFlowsFresh(cfg, s, steps) <==> NoneStrands(cfg, s, steps)
    decreases |steps|
  {
    hide FlowsFresh, Apply, Enabled, Strands;
    if steps != [] {
      var t := Apply(cfg, s, steps[0]);
      FlowsByStranding(cfg, s, steps[0]);
      if FlowsFresh(t) {
        FlowsFreshExactly(cfg, t, steps[1..]);
      }
    }
  }

  // ---- what a teardown removes ----

  /** The carrier a step lists: a pool connection that arrives where there is room for it. */
  function Admitted(cfg: Config, s: State, step: Step): seq<Carrier>
    requires Enabled(cfg, s, step)
  {
    if step.Admit? && !cfg.kind.DirectClient?
       && (cfg.mode.TcpMux? || (cfg.mode.Tcp? && |s.box.poolQueue| < QUEUE_CAP))
    then [Carrier(step.p, s.entering[step.p])] else []
  }

  /** The carriers a run lists, in order. */
  function Admissions(cfg: Config, s: State, steps: seq<Step>): seq<Carrier>
    requires IsRun(cfg, s, steps)
    decreases |steps|
  {
    if steps == [] then []
    else Admitted(cfg, s, steps[0]) + Admissions(cfg, Apply(cfg, s, steps[0]), steps[1..])
  }

  lemma {:induction false} KeepFewer(sessions: seq<Carrier>, closed: set<nat>)
    ensures multiset(Keep(sessions, closed)) <= multiset(sessions)
  {
    if sessions != [] {
      KeepFewer(sessions[1..], closed);
      assert sessions == [sessions[0]] + sessions[1..];
    }
  }

  lemma TailFewer(queue: seq<Carrier>)
    requires queue != []
    ensures multiset(queue[1..]) <= multiset(queue)
  {
    assert queue == [queue[0]] + queue[1..];
  }

  /** One step adds to the two lists at most what it admits. */
  lemma ListsGrowBy(cfg: Config, s: State, step: Step)
    requires Enabled(cfg, s, step)
    ensures var t := Apply(cfg, s, step);
            && multiset(t.box.poolQueue) <= multiset(s.box.poolQueue) + multiset(Admitted(cfg, s, step))
            && multiset(t.box.sessions) <= multiset(s.box.sessions) + multiset(Admitted(cfg, s, step))
  {
    match step
    case Admit(p) => AdmitGrows(cfg, s, p);
    case DrainOne(_) => TailFewer(s.box.poolQueue);
    case TakeConn => TailFewer(s.box.poolQueue);
    case Prune(closed) => KeepFewer(s.box.sessions, closed);
    case DropSessions(_) =>
    case _ => assert Apply(cfg, s, step).box.poolQueue == s.box.poolQueue
                     && Apply(cfg, s, step).box.sessions == s.box.sessions;
  }

  lemma AdmitGrows(cfg: Config, s: State, p: nat)
    requires Enabled(cfg, s, Admit(p))
    ensures var t, a := Apply(cfg, s, Admit(p)), multiset(Admitted(cfg, s, Admit(p)));
            && multiset(t.box.poolQueue) <= multiset(s.box.poolQueue) + a
            && multiset(t.box.sessions) <= multiset(s.box.sessions) + a
  {
  }

  lemma {:induction false} ListsGrow(cfg: Config, s: State, steps: seq<Step>)
    requires IsRun(cfg, s, steps)
    ensures var t, a := Exec(cfg, s, steps), multiset(Admissions(cfg, s, steps));
            && multiset(t.box.poolQueue) <= multiset(s.box.poolQueue) + a
            && multiset(t.box.sessions) <= multiset(s.box.sessions) + a
    decreases |steps|
  {
    hide Apply, Enabled, Admitted;
    if steps != [] {
      ListsGrowBy(cfg, s, steps[0]);
      ListsGrow(cfg, Apply(cfg, s, steps[0]), steps[1..]);
    }
  }

  /** `c` is past its release and its teardown has yet to empty the queue, or the session list. */
  predicate QueueAhead(s: State, c: nat) { c in s.controls && s.controls[c].Cleared? }

  predicate SessionsAhead(s: State, c: nat) {
    c in s.controls && (s.controls[c].Cleared? || s.controls[c].Emptied?)
  }

  lemma TeardownGoesOn(cfg: Config, s: State, step: Step, c: nat)
    requires Enabled(cfg, s, step)
    ensures var t := Apply(cfg, s, step);
            && (QueueAhead(s, c) ==> if step == DrainEnd(c) then t.box.poolQueue == [] else QueueAhead(t, c))
            && (SessionsAhead(s, c) ==> if step == DropSessions(c) then t.box.sessions == [] else SessionsAhead(t, c))
            && (step == DrainEnd(c) || step == DropSessions(c) ==> Admitted(cfg, s, step) == [])
  {
  }

  lemma {:induction false} QueueRenewed(cfg: Config, s: State, steps: seq<Step>, c: nat)
    requires IsRun(cfg, s, steps) && QueueAhead(s, c) && !QueueAhead(Exec(cfg, s, steps), c)
    ensures multiset(Exec(cfg, s, steps).box.poolQueue) <= multiset(Admissions(cfg, s, steps))
    decreases |steps|
  {
    hide Apply, Enabled, Admitted, QueueAhead, SessionsAhead;
    if steps != [] {
      var t := Apply(cfg, s, steps[0]);
      TeardownGoesOn(cfg, s, steps[0], c);
      if steps[0] == DrainEnd(c) {
        ListsGrow(cfg, t, steps[1..]);
      } else {
        QueueRenewed(cfg, t, steps[1..], c);
      }
    }
  }

  lemma {:induction false} SessionsRenewed(cfg: Config, s: State, steps: seq<Step>, c: nat)
    requires IsRun(cfg, s, steps) && SessionsAhead(s, c) && !SessionsAhead(Exec(cfg, s, steps), c)
    ensures multiset(Exec(cfg, s, steps).box.sessions) <= multiset(Admissions(cfg, s, steps))
    decreases |steps|
  {
    hide Apply, Enabled, Admitted, QueueAhead, SessionsAhead;
    if steps != [] {
      var t := Apply(cfg, s, steps[0]);
      TeardownGoesOn(cfg, s, steps[0], c);
      if steps[0] == DropSessions(c) {
        ListsGrow(cfg, t, steps[1..]);
      } else {
        SessionsRenewed(cfg, t, steps[1..], c);
      }
    }
  }

  /** A teardown removes every carrier that was listed when it began, stale ones of whatever
      generation included: take any run, the end of a control loop after it, and any steps after that
      up to the return of its teardown, with everything else going on in between. Whatever is listed
      then was listed in the course of those steps. */
  lemma TeardownRemovesWhatWasListed(cfg: Config, before: seq<Step>, c: nat, steps: seq<Step>)
    requires IsRun(cfg, INIT, before) && Enabled(cfg, Exec(cfg, INIT, before), Clear(c))
    requires IsRun(cfg, Apply(cfg, Exec(cfg, INIT, before), Clear(c)), steps)
    requires var t := Exec(cfg, Apply(cfg, Exec(cfg, INIT, before), Clear(c)), steps);
             c in t.controls && t.controls[c].Finished?
    ensures var s := Apply(cfg, Exec(cfg, INIT, before), Clear(c));
            multiset(Listed(Exec(cfg, s, steps).box)) <= multiset(Admissions(cfg, s, steps))
  {
    var read := Exec(cfg, INIT, before);
    var s := Apply(cfg, read, Clear(c));
    var t := Exec(cfg, s, steps);
    PoolInvariantHolds(cfg, INIT, before);
    SlotInvariantHolds(cfg, INIT, before);
    SlotStep(cfg, read, Clear(c));
    PoolStep(cfg, read, Clear(c));
    assert QueueAhead(s, c);
    PoolInvariantHolds(cfg, s, steps);
    assert ModeLists(cfg, t.box);
    hide SlotInv, PoolInv;
    ListedRenewed(cfg, s, steps, c);
  }

  lemma ListedRenewed(cfg: Config, s: State, steps: seq<Step>, c: nat)
    requires IsRun(cfg, s, steps) && QueueAhead(s, c) && ModeLists(cfg, Exec(cfg, s, steps).box)
    requires c in Exec(cfg, s, steps).controls && Exec(cfg, s, steps).controls[c].Finished?
    ensures multiset(Listed(Exec(cfg, s, steps).box)) <= multiset(Admissions(cfg, s, steps))
  {
    QueueRenewed(cfg, s, steps, c);
    SessionsRenewed(cfg, s, steps, c);
    hide Admissions, IsRun, Exec;
    OneList(cfg, Exec(cfg, s, steps).box);
  }

  /** Only one of the two lists is in use. */
  lemma OneList(cfg: Config, b: Box)
    requires ModeLists(cfg, b)
    ensures Listed(b) == b.poolQueue || Listed(b) == b.sessions
  {
    assert cfg.mode.Tcp? ==> b.poolQueue + [] == b.poolQueue;
    assert !cfg.mode.Tcp? ==> [] + b.sessions == b.sessions;
  }
}
