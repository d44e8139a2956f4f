/** Where every carrier goes, over every run at the fine grain: what is admitted is handed out, torn
    down, pruned, or still there, and nothing twice. What went where is logged from the state before
    each step. */
module GenerationHandout {
  import opened Options
  import opened Generation
  import opened GenerationPool
  import opened GenerationSafety
  import opened GenerationStaleness

  // ---- tcp: the queue ----

  /** A connection that leaves the queue: its head, taken by a user or drained by a teardown. */
  function Left(cfg: Config, s: State, step: Step): seq<Carrier>
    requires Enabled(cfg, s, step)
  {
    if step.TakeConn? || step.DrainOne? then [s.box.poolQueue[0]] else []
  }

  function Leavings(cfg: Config, s: State, steps: seq<Step>): seq<Carrier>
    requires IsRun(cfg, s, steps)
    decreases |steps|
  {
    if steps == [] then [] else Left(cfg, s, steps[0]) + Leavings(cfg, Apply(cfg, s, steps[0]), steps[1..])
  }

  /** What users got, in order. */
  function Handed(cfg: Config, s: State, steps: seq<Step>): seq<Carrier>
    requires IsRun(cfg, s, steps)
    decreases |steps|
  {
    if steps == [] then []
    else (if steps[0].TakeConn? then Left(cfg, s, steps[0]) else [])
         + Handed(cfg, Apply(cfg, s, steps[0]), steps[1..])
  }

  lemma HeadOff(q: seq<Carrier>)
    requires q != []
    ensures [q[0]] + q[1..] == q + []
  {
  }

  lemma QueueMoves(cfg: Config, s: State, step: Step)
    requires Enabled(cfg, s, step) && cfg.mode.Tcp?
    ensures Left(cfg, s, step) + Apply(cfg, s, step).box.poolQueue == s.box.poolQueue + Admitted(cfg, s, step)
  {
    if step.TakeConn? || step.DrainOne? {
      HeadOff(s.box.poolQueue);
    } else if !step.Admit? {
      QueueAlone(cfg, s, step);
      hide Apply;
      assert [] + s.box.poolQueue == s.box.poolQueue + [];
    }
  }

  lemma QueueAlone(cfg: Config, s: State, step: Step)
    requires Enabled(cfg, s, step) && !step.TakeConn? && !step.DrainOne? && !step.Admit?
    ensures Apply(cfg, s, step).box.poolQueue == s.box.poolQueue
  {
  }

  lemma Reassociate(a: seq<Carrier>, q: seq<Carrier>, l: seq<Carrier>, q': seq<Carrier>,
                    more: seq<Carrier>, rest: seq<Carrier>, q'': seq<Carrier>)
    requires l + q' == q + a && rest + q'' == q' + more
    ensures (l + rest) + q'' == q + (a + more)
  {
    assert (l + rest) + q'' == l + (rest + q'') == l + (q' + more) == (l + q') + more;
  }

  lemma {:induction false} QueueConserved(cfg: Config, s: State, steps: seq<Step>)
    requires IsRun(cfg, s, steps) && cfg.mode.Tcp?
    ensures Leavings(cfg, s, steps) + Exec(cfg, s, steps).box.poolQueue
            == s.box.poolQueue + Admissions(cfg, s, steps)
    decreases |steps|
  {
    hide Apply, Enabled, Left, Admitted;
    if steps != [] {
      var t := Apply(cfg, s, steps[0]);
      QueueMoves(cfg, s, steps[0]);
      QueueConserved(cfg, t, steps[1..]);
      Reassociate(Admitted(cfg, s, steps[0]), s.box.poolQueue, Left(cfg, s, steps[0]), t.box.poolQueue,
                  Admissions(cfg, t, steps[1..]), Leavings(cfg, t, steps[1..]), Exec(cfg, s, steps).box.poolQueue);
    }
  }

  /** `sub` is read off `whole` at increasing places. */
  ghost predicate ReadsOff(sub: seq<Carrier>, whole: seq<Carrier>, at: seq<nat>) {
    && |at| == |sub|
    && (forall i :: 0 <= i < |at| ==> at[i] < |whole| && sub[i] == whole[at[i]])
    && (forall i, j :: 0 <= i < j < |at| ==> at[i] < at[j])
  }

  lemma {:induction false} HandedLeave(cfg: Config, s: State, steps: seq<Step>) returns (at: seq<nat>)
    requires IsRun(cfg, s, steps)
    ensures ReadsOff(Handed(cfg, s, steps), Leavings(cfg, s, steps), at)
    decreases |steps|
  {
    hide Apply, Enabled, ReadsOff;
    if steps == [] {
      at := Nothing(Leavings(cfg, s, steps));
    } else {
      assert Enabled(cfg, s, steps[0]);
      var t := Apply(cfg, s, steps[0]);
      var later := HandedLeave(cfg, t, steps[1..]);
      at := HandedMore(steps[0].TakeConn?, Left(cfg, s, steps[0]), Handed(cfg, t, steps[1..]),
                       Leavings(cfg, t, steps[1..]), later);
      assert [] + Handed(cfg, t, steps[1..]) == Handed(cfg, t, steps[1..]);
    }
  }

  lemma Nothing(whole: seq<Carrier>) returns (at: seq<nat>)
    ensures ReadsOff([], whole, at)
  {
    at := [];
  }

  /** One more leaves in front, and it was handed out or it was not. */
  lemma HandedMore(took: bool, left: seq<Carrier>, handed: seq<Carrier>, leavings: seq<Carrier>, later: seq<nat>)
    returns (at: seq<nat>)
    requires ReadsOff(handed, leavings, later) && (took ==> |left| == 1)
    ensures ReadsOff((if took then left else []) + handed, left + leavings, at)
  {
    at := Later(later, handed, left, leavings);
    if took {
      assert left == [left[0]];
      at := FirstToo(handed, left + leavings, at, left[0]);
    } else {
      assert [] + handed == handed;
    }
  }

  lemma Later(at: seq<nat>, sub: seq<Carrier>, front: seq<Carrier>, whole: seq<Carrier>) returns (moved: seq<nat>)
    requires ReadsOff(sub, whole, at)
    ensures ReadsOff(sub, front + whole, moved) && forall i :: 0 <= i < |moved| ==> moved[i] >= |front|
  {
    moved := seq(|at|, i requires 0 <= i < |at| => at[i] + |front|);
  }

  /** Conservation in mode tcp, over every run: the connections that left the queue, in the order they
      left, followed by those still in it, are exactly the admissions in their order. So users are
      handed connections in the order they were queued, and no admission is handed out twice. */
  lemma HandedOutOnce(cfg: Config, steps: seq<Step>) returns (at: seq<nat>)
    requires IsRun(cfg, INIT, steps) && cfg.mode.Tcp?
    ensures Leavings(cfg, INIT, steps) + Exec(cfg, INIT, steps).box.poolQueue == Admissions(cfg, INIT, steps)
    ensures ReadsOff(Handed(cfg, INIT, steps), Admissions(cfg, INIT, steps), at)
    ensures forall i :: 0 <= i < |at| ==> at[i] < |Admissions(cfg, INIT, steps)| - |Exec(cfg, INIT, steps).box.poolQueue|
  {
    QueueConserved(cfg, INIT, steps);
    at := HandedLeave(cfg, INIT, steps);
    var all, left := Admissions(cfg, INIT, steps), Leavings(cfg, INIT, steps);
    assert INIT.box.poolQueue + all == all;
    assert forall i :: 0 <= i < |left| ==> left[i] == all[i];
  }

  // ---- tcpmux: the session list ----

  /** The sessions a step takes off the list: those pruned as closed, or all of them. */
  function Removed(cfg: Config, s: State, step: Step): seq<Carrier>
    requires Enabled(cfg, s, step)
  {
    match step
    case DropSessions(_) => s.box.sessions
    case Prune(closed) => Gone(s.box.sessions, closed)
    case _ => []
  }

  function Gone(sessions: seq<Carrier>, closed: set<nat>): seq<Carrier> {
    if sessions == [] then []
    else (if sessions[0].conn in closed then [sessions[0]] else []) + Gone(sessions[1..], closed)
  }

  function Removals(cfg: Config, s: State, steps: seq<Step>): seq<Carrier>
    requires IsRun(cfg, s, steps)
    decreases |steps|
  {
    if steps == [] then [] else Removed(cfg, s, steps[0]) + Removals(cfg, Apply(cfg, s, steps[0]), steps[1..])
  }

  lemma {:induction false} KeptAndGone(sessions: seq<Carrier>, closed: set<nat>)
    ensures multiset(Keep(sessions, closed)) + multiset(Gone(sessions, closed)) == multiset(sessions)
    ensures forall x :: x in Keep(sessions, closed) ==> x.conn !in closed
    ensures forall x :: x in Gone(sessions, closed) ==> x.conn in closed
  {
    if sessions != [] {
      KeptAndGone(sessions[1..], closed);
      assert sessions == [sessions[0]] + sessions[1..];
    }
  }

  lemma SessionsAlone(cfg: Config, s: State, step: Step)
    requires Enabled(cfg, s, step) && !step.Prune? && !step.Admit? && !step.DropSessions?
    ensures Apply(cfg, s, step).box.sessions == s.box.sessions
    ensures Removed(cfg, s, step) == [] && Admitted(cfg, s, step) == []
  {
  }

  lemma SessionAdmitted(cfg: Config, s: State, p: nat)
    requires Enabled(cfg, s, Admit(p)) && cfg.mode.TcpMux?
    ensures Apply(cfg, s, Admit(p)).box.sessions == s.box.sessions + Admitted(cfg, s, Admit(p))
  {
  }

  lemma SessionsMove(cfg: Config, s: State, step: Step)
    requires Enabled(cfg, s, step) && cfg.mode.TcpMux?
    ensures multiset(Removed(cfg, s, step)) + multiset(Apply(cfg, s, step).box.sessions)
            == multiset(s.box.sessions) + multiset(Admitted(cfg, s, step))
  {
    if step.Prune? {
      KeptAndGone(s.box.sessions, step.closed);
    } else if step.Admit? {
      SessionAdmitted(cfg, s, step.p);
      hide Apply, Admitted;
      Together(s.box.sessions, Admitted(cfg, s, step));
    } else if !step.DropSessions? {
      SessionsAlone(cfg, s, step);
      hide Apply, Removed, Admitted;
    }
  }

  lemma Rebalance(gone: seq<Carrier>, mid: seq<Carrier>, first: seq<Carrier>, added: seq<Carrier>,
                  later: seq<Carrier>, last: seq<Carrier>, more: seq<Carrier>)
    requires multiset(gone) + multiset(mid) == multiset(first) + multiset(added)
    requires multiset(later) + multiset(last) == multiset(mid) + multiset(more)
    ensures multiset(gone + later) + multiset(last) == multiset(first) + multiset(added + more)
  {
    Together(gone, later);
    Together(added, more);
    SumsMove(multiset(gone), multiset(mid), multiset(first), multiset(added),
             multiset(later), multiset(last), multiset(more));
  }

  lemma Together(a: seq<Carrier>, b: seq<Carrier>)
    ensures multiset(a + b) == multiset(a) + multiset(b)
  {
  }

  lemma SumsMove(g: multiset<Carrier>, m: multiset<Carrier>, f: multiset<Carrier>, a: multiset<Carrier>,
                 l: multiset<Carrier>, z: multiset<Carrier>, n: multiset<Carrier>)
    requires g + m == f + a && l + z == m + n
    ensures (g + l) + z == f + (a + n)
  {
    forall x: Carrier
      ensures ((g + l) + z)[x] == (f + (a + n))[x]
    {
      assert (g + m)[x] == (f + a)[x] && (l + z)[x] == (m + n)[x];
    }
  }

  lemma {:induction false} SessionsBalance(cfg: Config, s: State, steps: seq<Step>)
    requires IsRun(cfg, s, steps) && cfg.mode.TcpMux?
    ensures multiset(Removals(cfg, s, steps)) + multiset(Exec(cfg, s, steps).box.sessions)
            == multiset(s.box.sessions) + multiset(Admissions(cfg, s, steps))
    decreases |steps|
  {
    hide Apply, Enabled, Removed, Admitted;
    if steps != [] {
      var t := Apply(cfg, s, steps[0]);
      SessionsMove(cfg, s, steps[0]);
      SessionsBalance(cfg, t, steps[1..]);
      Rebalance(Removed(cfg, s, steps[0]), t.box.sessions, s.box.sessions, Admitted(cfg, s, steps[0]),
                Removals(cfg, t, steps[1..]), Exec(cfg, s, steps).box.sessions, Admissions(cfg, t, steps[1..]));
    }
  }

  /** Conservation in mode tcpmux, over every run: the sessions pruned as closed, those dropped by
      teardowns and those still listed are together exactly the admissions, as often as they were
      admitted; and a session is pruned only when it is closed. */
  lemma SessionsConserved(cfg: Config, steps: seq<Step>)
    requires IsRun(cfg, INIT, steps) && cfg.mode.TcpMux?
    ensures multiset(Removals(cfg, INIT, steps)) + multiset(Exec(cfg, INIT, steps).box.sessions)
            == multiset(Admissions(cfg, INIT, steps))
  {
    SessionsBalance(cfg, INIT, steps);
  }

  lemma FirstToo(rest: seq<Carrier>, whole: seq<Carrier>, at: seq<nat>, first: Carrier) returns (all: seq<nat>)
    requires ReadsOff(rest, whole, at) && whole != [] && whole[0] == first
    requires forall i :: 0 <= i < |at| ==> at[i] >= 1
    ensures ReadsOff([first] + rest, whole, all)
  {
    all := [0] + at;
  }

  lemma {:induction false} KeptReadsOff(sessions: seq<Carrier>, closed: set<nat>) returns (at: seq<nat>)
    ensures ReadsOff(Keep(sessions, closed), sessions, at)
  {
    at := [];
    if sessions != [] {
      var later := KeptReadsOff(sessions[1..], closed);
      at := Later(later, Keep(sessions[1..], closed), [sessions[0]], sessions[1..]);
      assert sessions == [sessions[0]] + sessions[1..];
      var rest := Keep(sessions[1..], closed);
      if sessions[0].conn !in closed {
        at := FirstToo(rest, sessions, at, sessions[0]);
      } else {
        assert Keep(sessions, closed) == rest;
      }
    }
  }

  lemma Compose(a: seq<Carrier>, b: seq<Carrier>, c: seq<Carrier>, x: seq<nat>, y: seq<nat>) returns (z: seq<nat>)
    requires ReadsOff(a, b, x) && ReadsOff(b, c, y)
    ensures ReadsOff(a, c, z)
  {
    z := seq(|x|, i requires 0 <= i < |x| => y[x[i]]);
  }

  /** What one step makes of the session list: some of it, in order, and then what it admits. */
  lemma SessionsStepOrder(cfg: Config, s: State, step: Step) returns (at: seq<nat>)
    requires Enabled(cfg, s, step) && cfg.mode.TcpMux?
    ensures ReadsOff(Apply(cfg, s, step).box.sessions, s.box.sessions + Admitted(cfg, s, step), at)
  {
    if step.Prune? {
      at := KeptReadsOff(s.box.sessions, step.closed);
      assert s.box.sessions + [] == s.box.sessions;
    } else if step.Admit? {
      SessionAdmitted(cfg, s, step.p);
      at := Identity(s.box.sessions + Admitted(cfg, s, step));
    } else if step.DropSessions? {
      at := Nothing(s.box.sessions + []);
    } else {
      SessionsAlone(cfg, s, step);
      hide Apply, Removed, Admitted;
      at := Identity(s.box.sessions);
      assert s.box.sessions + [] == s.box.sessions;
    }
  }

  lemma Extend(a: seq<Carrier>, b: seq<Carrier>, x: seq<nat>, more: seq<Carrier>) returns (y: seq<nat>)
    requires ReadsOff(a, b, x)
    ensures ReadsOff(a + more, b + more, y)
  {
    y := x + seq(|more|, i => |b| + i);
  }

  /** The list is always in the order of admission. */
  lemma {:induction false} SessionsInOrder(cfg: Config, s: State, steps: seq<Step>) returns (at: seq<nat>)
    requires IsRun(cfg, s, steps) && cfg.mode.TcpMux?
    ensures ReadsOff(Exec(cfg, s, steps).box.sessions, s.box.sessions + Admissions(cfg, s, steps), at)
    decreases |steps|
  {
    hide Apply, Enabled, Admitted, ReadsOff;
    if steps == [] {
      at := Identity(s.box.sessions);
      assert s.box.sessions + [] == s.box.sessions;
    } else {
      var t := Apply(cfg, s, steps[0]);
      var first := SessionsStepOrder(cfg, s, steps[0]);
      var later := SessionsInOrder(cfg, t, steps[1..]);
      var more := Admissions(cfg, t, steps[1..]);
      var both := Extend(t.box.sessions, s.box.sessions + Admitted(cfg, s, steps[0]), first, more);
      at := Compose(Exec(cfg, s, steps).box.sessions, t.box.sessions + more,
                    (s.box.sessions + Admitted(cfg, s, steps[0])) + more, later, both);
      assert (s.box.sessions + Admitted(cfg, s, steps[0])) + more
          == s.box.sessions + (Admitted(cfg, s, steps[0]) + more);
    }
  }

  lemma Identity(a: seq<Carrier>) returns (at: seq<nat>)
    ensures ReadsOff(a, a, at)
  {
    at := seq(|a|, i => i);
  }

  // ---- udp: the queue of flows ----

  /** The flow a step queues: an authenticated one, while there is room. */
  function FlowIn(cfg: Config, s: State, step: Step): seq<Carrier>
    requires Enabled(cfg, s, step)
  {
    if step.QueueFlow? && |s.flowCh| < QUEUE_CAP then [Carrier(step.p, s.entering[step.p])] else []
  }

  /** The flow a step claims: the longest-queued one. */
  function FlowOut(cfg: Config, s: State, step: Step): seq<Carrier>
    requires Enabled(cfg, s, step)
  {
    if step.ClaimFlow? then [s.flowCh[0]] else []
  }

  function FlowsQueued(cfg: Config, s: State, steps: seq<Step>): seq<Carrier>
    requires IsRun(cfg, s, steps)
    decreases |steps|
  {
    if steps == [] then [] else FlowIn(cfg, s, steps[0]) + FlowsQueued(cfg, Apply(cfg, s, steps[0]), steps[1..])
  }

  function FlowsClaimed(cfg: Config, s: State, steps: seq<Step>): seq<Carrier>
    requires IsRun(cfg, s, steps)
    decreases |steps|
  {
    if steps == [] then [] else FlowOut(cfg, s, steps[0]) + FlowsClaimed(cfg, Apply(cfg, s, steps[0]), steps[1..])
  }

  lemma FlowsMove(cfg: Config, s: State, step: Step)
    requires Enabled(cfg, s, step)
    ensures FlowOut(cfg, s, step) + Apply(cfg, s, step).flowCh == s.flowCh + FlowIn(cfg, s, step)
  {
    if step.ClaimFlow? {
      HeadOff(s.flowCh);
    } else if !step.QueueFlow? {
      FlowsAlone(cfg, s, step);
      hide Apply;
      assert [] + s.flowCh == s.flowCh + [];
    }
  }

  lemma FlowsAlone(cfg: Config, s: State, step: Step)
    requires Enabled(cfg, s, step) && !step.ClaimFlow? && !step.QueueFlow?
    ensures Apply(cfg, s, step).flowCh == s.flowCh
  {
  }

  lemma {:induction false} FlowsBalance(cfg: Config, s: State, steps: seq<Step>)
    requires IsRun(cfg, s, steps)
    ensures FlowsClaimed(cfg, s, steps) + Exec(cfg, s, steps).flowCh == s.flowCh + FlowsQueued(cfg, s, steps)
    decreases |steps|
  {
    hide Apply, Enabled, FlowIn, FlowOut;
    if steps != [] {
      var t := Apply(cfg, s, steps[0]);
      FlowsMove(cfg, s, steps[0]);
      FlowsBalance(cfg, t, steps[1..]);
      Reassociate(FlowIn(cfg, s, steps[0]), s.flowCh, FlowOut(cfg, s, steps[0]), t.flowCh,
                  FlowsQueued(cfg, t, steps[1..]), FlowsClaimed(cfg, t, steps[1..]), Exec(cfg, s, steps).flowCh);
    }
  }

  /** Conservation in mode udp, over every run: the flows claimed, in order, and those still queued are
      exactly the flows queued, in order; each is claimed at most once. */
  lemma FlowsClaimedOnce(cfg: Config, steps: seq<Step>)
    requires IsRun(cfg, INIT, steps)
    ensures FlowsClaimed(cfg, INIT, steps) + Exec(cfg, INIT, steps).flowCh == FlowsQueued(cfg, INIT, steps)
  {
    FlowsBalance(cfg, INIT, steps);
    assert INIT.flowCh + FlowsQueued(cfg, INIT, steps) == FlowsQueued(cfg, INIT, steps);
  }

  // ---- handshakes, control connections and requests ----

  function Count(steps: seq<Step>, kind: Step -> bool): nat {
    if steps == [] then 0 else (if kind(steps[0]) then 1 else 0) + Count(steps[1..], kind)
  }

  const ENTERS: Step -> bool := (x: Step) => x.Enter?
  const SETTLES: Step -> bool := (x: Step) => x.Admit? || x.QueueFlow? || x.Leave?
  const TESTS: Step -> bool := (x: Step) => x.Test?
  const GIVES_UP: Step -> bool := (x: Step) => x.GiveUp?
  const READS: Step -> bool := (x: Step) => x.ReadOut?
  const SENDS: Step -> bool := (x: Step) => x.SendNeed?

  lemma Added<T>(m: map<nat, T>, k: nat, v: T)
    ensures |m[k := v]| == |m| + if k in m then 0 else 1
  {
    assert m[k := v].Keys == m.Keys + {k};
  }

  lemma Dropped<T>(m: map<nat, T>, k: nat)
    requires k in m
    ensures |m - {k}| == |m| - 1
  {
    assert (m - {k}).Keys == m.Keys - {k};
  }

  lemma EnteringStep(cfg: Config, s: State, step: Step)
    requires Enabled(cfg, s, step)
    ensures |Apply(cfg, s, step).entering| == |s.entering| + (if ENTERS(step) then 1 else 0) - (if SETTLES(step) then 1 else 0)
  {
    match step
    case Enter(p, e) => Added(s.entering, p, e);
    case Admit(p) => Dropped(s.entering, p);
    case QueueFlow(p) => Dropped(s.entering, p);
    case Leave(p) => Dropped(s.entering, p);
    case _ => assert Apply(cfg, s, step).entering == s.entering;
  }

  lemma ControlsStep(cfg: Config, s: State, step: Step)
    requires Enabled(cfg, s, step)
    ensures |Apply(cfg, s, step).controls| == |s.controls| + (if TESTS(step) then 1 else 0) - (if GIVES_UP(step) then 1 else 0)
  {
    match step
    case Test(c) => Added(s.controls, c, Tested(s.drawn));
    case GiveUp(c) => Dropped(s.controls, c);
    case Publish(c) => Added(s.controls, c, Running(s.controls[c].epoch, s.made));
    case Clear(c) => Added(s.controls, c, Cleared(s.controls[c].epoch));
    case DrainEnd(c) => Added(s.controls, c, Emptied(s.controls[c].epoch));
    case DropSessions(c) => Added(s.controls, c, Finished(s.controls[c].epoch));
    case _ => assert Apply(cfg, s, step).controls == s.controls;
  }

  lemma SendersStep(cfg: Config, s: State, step: Step)
    requires Enabled(cfg, s, step)
    ensures |Apply(cfg, s, step).senders| == |s.senders| + (if READS(step) then 1 else 0) - (if SENDS(step) then 1 else 0)
  {
    match step
    case ReadOut(r) => Added(s.senders, r, s.box.ctrlOut.value);
    case SendNeed(r) => Dropped(s.senders, r);
    case _ => assert Apply(cfg, s, step).senders == s.senders;
  }

  /** Every pool handshake that passed its check is admitted, has failed, or is still on its way; every
      control connection that found the slot free has given up or is on record; every request that
      read a channel has sent or still holds it. */
  lemma {:induction false} NothingGetsLost(cfg: Config, s: State, steps: seq<Step>)
    requires IsRun(cfg, s, steps)
    ensures var t := Exec(cfg, s, steps);
            && |s.entering| + Count(steps, ENTERS) == Count(steps, SETTLES) + |t.entering|
            && |s.controls| + Count(steps, TESTS) == Count(steps, GIVES_UP) + |t.controls|
            && |s.senders| + Count(steps, READS) == Count(steps, SENDS) + |t.senders|
    decreases |steps|
  {
    hide Apply, Enabled;
    if steps != [] {
      EnteringStep(cfg, s, steps[0]);
      ControlsStep(cfg, s, steps[0]);
      SendersStep(cfg, s, steps[0]);
      NothingGetsLost(cfg, Apply(cfg, s, steps[0]), steps[1..]);
    }
  }

  /** Over every run, which handshakes are let in: exactly those for the epoch of a control connection
      that is running and, on a listening box, holds the slot. */
  lemma LetInExactly(cfg: Config, steps: seq<Step>, p: nat, e: Epoch)
    requires IsRun(cfg, INIT, steps)
    requires p !in Exec(cfg, INIT, steps).entering && |Exec(cfg, INIT, steps).entering| < cfg.limit
    ensures var s := Exec(cfg, INIT, steps);
            Enabled(cfg, s, Enter(p, e)) <==>
            exists c :: c in s.controls && s.controls[c].Running? && s.controls[c].epoch == e
                        && (cfg.kind.DirectServer? || s.box.controlConn == Some(c))
  {
    SlotInvariantHolds(cfg, INIT, steps);
    CoherentLetsIn(cfg, Exec(cfg, INIT, steps), p, e);
  }

  lemma CoherentLetsIn(cfg: Config, s: State, p: nat, e: Epoch)
    requires Coherent(cfg.kind, s) && p !in s.entering && |s.entering| < cfg.limit
    ensures Enabled(cfg, s, Enter(p, e)) <==>
            exists c :: c in s.controls && s.controls[c].Running? && s.controls[c].epoch == e
                        && (cfg.kind.DirectServer? || s.box.controlConn == Some(c))
  {
    if !cfg.kind.DirectServer? && Enabled(cfg, s, Enter(p, e)) {
      var c := s.box.controlConn.value;
      assert c in s.controls && s.controls[c].Running?;
    }
  }

  /** Nobody waits for anybody: a control connection can test exactly while the slot is free, then
      publish or give up; a loop can end at any time, its teardown goes on until it has emptied the
      queue and then the list; a handshake that was let in can be admitted or fail; a request that read
      a channel can send. */
  lemma NobodyIsStuck(cfg: Config, s: State, c: nat, p: nat, r: nat)
    ensures Enabled(cfg, s, Test(c)) <==> c !in s.controls && s.box.controlConn == None
    ensures c in s.controls ==>
              match s.controls[c]
              case Tested(_) => Enabled(cfg, s, Publish(c)) && Enabled(cfg, s, GiveUp(c))
              case Running(_, _) => Enabled(cfg, s, Clear(c))
              case Cleared(_) => if s.box.poolQueue != [] then Enabled(cfg, s, DrainOne(c)) else Enabled(cfg, s, DrainEnd(c))
              case Emptied(_) => Enabled(cfg, s, DropSessions(c))
              case Finished(_) => true
    ensures Enabled(cfg, s, Admit(p)) <==> p in s.entering
    ensures Enabled(cfg, s, Leave(p)) <==> p in s.entering
    ensures Enabled(cfg, s, SendNeed(r)) <==> r in s.senders
    ensures Enabled(cfg, s, TakeConn) <==> s.box.poolQueue != []
    ensures Enabled(cfg, s, ClaimFlow) <==> s.flowCh != []
  {
  }

  // ---- when the test and the publication are one step ----

  /** Every control connection that finds the slot free goes on at once to publish, or gives up, and
      nobody publishes otherwise. `due` is the one that is between its test and that. */
  predicate Fused(ms: seq<Macro>, due: Option<nat>) {
    if ms == [] then true
    else if due.Some? then (ms[0] == Open(due.value) || ms[0] == Abort(due.value)) && Fused(ms[1..], None)
    else !ms[0].Open? && Fused(ms[1..], if ms[0].Begin? then Some(ms[0].c) else None)
  }

  lemma {:induction false} FusedFreeSlot(cfg: Config, s: State, ms: seq<Macro>, due: Option<nat>)
    requires IsCoarseRun(cfg, s, ms) && Fused(ms, due)
    requires due.Some? ==> s.box.controlConn == None
    ensures FreeSlotPublications(cfg, s, ms)
    decreases |ms|
  {
    if ms != [] {
      var t := Do(cfg, s, ms[0]);
      if due.None? && ms[0].Begin? {
        SingleStep(cfg, s, ms[0]);
        assert t.box == s.box;
        FusedFreeSlot(cfg, t, ms[1..], Some(ms[0].c));
      } else {
        FusedFreeSlot(cfg, t, ms[1..], None);
      }
    }
  }

  /** With the test and the publication fused, the strong form of generation safety holds throughout
      every coarse run: each publication finds the slot free and nothing listed. */
  lemma FusedPublicationIsSafe(cfg: Config, ms: seq<Macro>)
    requires cfg.kind.ReverseServer? && IsCoarseRun(cfg, INIT, ms) && Fused(ms, None)
    ensures FreeSlotPublications(cfg, INIT, ms) && AlwaysMatches(cfg, INIT, ms)
  {
    FusedFreeSlot(cfg, INIT, ms, None);
    PublishedEpochSafety(cfg, ms);
  }
}
