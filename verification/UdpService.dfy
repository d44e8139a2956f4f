/** Mode "udp" (udpcarrier.go) over whole runs: who is served by whom. Which session a user's datagram
    goes to, which flow a new session gets, what happens to a new flow, and what goes out on the
    sockets. The logs are read off the state before each step. */
module UdpService {
  import opened UdpCarrier
  import opened UdpRuns

  // ---- a known user ----

  /** When the port next sends, this session has room. */
  predicate RoomWhenSent(s: State, steps: seq<Step>, port: nat, n: nat)
    requires IsRun(s, steps)
    decreases |steps|
  {
    steps != [] &&
    if steps[0] == PortSends(port) then n in s.sessions && |s.sessions[n].toFlow.queue| < CHANNEL_SLOTS
    else RoomWhenSent(Apply(s, steps[0]), steps[1..], port, n)
  }

  /** What a port does for a user it has no session for. */
  predicate IsForNewUser(step: Step, port: nat) {
    step == Claim(port) || step == AnnounceFails(port) || step == GiveUp(port)
    || (step.StartSession? && step.port == port)
  }

  /** Until the port next sends it does nothing of the kind. */
  predicate JustSends(steps: seq<Step>, port: nat) {
    steps != [] && steps[0] != PortSends(port) ==> !IsForNewUser(steps[0], port) && JustSends(steps[1..], port)
  }

  lemma SendingStays(s: State, step: Step, port: nat)
    requires Enabled(s, step) && PortOf(s, port).Sending? && step != PortSends(port)
    ensures PortOf(Apply(s, step), port) == PortOf(s, port) && !IsForNewUser(step, port)
  {
    match step
    case ReaderGoesOn => ReaderSide(s);
    case _ =>
  }

  lemma {:induction false} SendsToKnown(s: State, steps: seq<Step>, port: nat, n: nat)
    requires IsRun(s, steps) && PortOf(s, port).Sending?
    ensures SendsTo(s, steps, port, n) <==> n == PortOf(s, port).n && RoomWhenSent(s, steps, port, n)
    ensures JustSends(steps, port)
    decreases |steps|
  {
    if steps != [] && steps[0] == PortSends(port) {
      assert Enabled(s, PortSends(port));
    } else {
      hide Apply, Enabled, PortOf;
      if steps != [] {
        SendingStays(s, steps[0], port);
        SendsToKnown(Apply(s, steps[0]), steps[1..], port, n);
      }
    }
  }

  /** A datagram from a user whom the port's map leads to a session goes to that session: over any
      run, it ends up in the channel of session `n` if and only if `n` is that session and has one of
      its 64 slots free when the port next sends; and until then the port claims no flow, starts no
      session and does not give up. */
  lemma KnownUserServed(before: seq<Step>, arrival: Step, after: seq<Step>, n: nat)
    requires arrival.FromUser? && IsRun(INIT, before) && Enabled(Exec(INIT, before), arrival)
    requires (arrival.port, arrival.user) in Exec(INIT, before).users
    requires IsRun(Apply(Exec(INIT, before), arrival), after)
    ensures var s := Exec(INIT, before);
            var r := Apply(s, arrival);
            && (HasUp(Exec(r, after), n, |FromPorts(before)|) <==>
                  n == s.users[(arrival.port, arrival.user)] && RoomWhenSent(r, after, arrival.port, n))
            && JustSends(after, arrival.port)
  {
    var s := Exec(INIT, before);
    var r := Apply(s, arrival);
    assert PortOf(r, arrival.port) == Sending(s.users[(arrival.port, arrival.user)], Item(|s.sent|, arrival.data));
    hide Apply, HasUp, FromPorts;
    UserDeliveredExactly(before, arrival, after, n);
    SendsToKnown(r, after, arrival.port, n);
  }

  // ---- an unknown user ----

  /** The port starts session `n` and then sends, before it gives up. */
  predicate ServedBy(steps: seq<Step>, port: nat, n: nat, started: bool) {
    steps != [] && steps[0] != GiveUp(port) &&
    if steps[0] == PortSends(port) then started
    else ServedBy(steps[1..], port, n, started || steps[0] == StartSession(port, n))
  }

  /** The port is about to send to a session it has just started. */
  predicate Fresh(s: State, port: nat) {
    && PortOf(s, port).Sending? && PortOf(s, port).n in s.sessions
    && s.sessions[PortOf(s, port).n].port == port
    && s.sessions[PortOf(s, port).n].stage == Starting && s.sessions[PortOf(s, port).n].toFlow == EMPTY
  }

  /** The port is looking for a flow. */
  predicate Looking(s: State, port: nat) { PortOf(s, port).Wanting? || PortOf(s, port).Claimed? }

  lemma FreshStays(s: State, step: Step, port: nat)
    requires Inv(s) && Enabled(s, step) && Fresh(s, port) && step != PortSends(port)
    ensures Fresh(Apply(s, step), port) && PortOf(Apply(s, step), port) == PortOf(s, port)
  {
    SendingStays(s, step, port);
    var n := PortOf(s, port).n;
    if step.PortSends? {
      assert HoldsRight(s, step.port, s.ports[step.port]);
    }
    SessionAlone(s, step, n);
    hide Apply, Inv;
  }

  /** Only the session's own port sends to it, and while it starts nothing else happens to it. */
  lemma SessionAlone(s: State, step: Step, n: nat)
    requires Enabled(s, step) && n in s.sessions && s.sessions[n].stage == Starting
    requires step.PortSends? ==> PortOf(s, step.port).n != n
    ensures n in Apply(s, step).sessions && Apply(s, step).sessions[n] == s.sessions[n]
  {
    match step
    case ReaderGoesOn => ReaderSide(s);
    case _ =>
  }

  lemma LookingGoesOn(s: State, step: Step, port: nat)
    requires Inv(s) && Enabled(s, step) && Looking(s, port) && step != GiveUp(port)
    ensures step != PortSends(port)
    ensures if step.StartSession? && step.port == port
            then Fresh(Apply(s, step), port) && PortOf(Apply(s, step), port).n == step.n
            else Looking(Apply(s, step), port)
  {
    hide Inv;
    match step
    case ReaderGoesOn => ReaderSide(s);
    case _ =>
  }

  lemma FreshSends(s: State, steps: seq<Step>, port: nat, n: nat)
    requires IsRun(s, steps) && Fresh(s, port) && steps != [] && steps[0] == PortSends(port)
    ensures SendsTo(s, steps, port, n) <==> ServedBy(steps, port, n, PortOf(s, port).n == n)
  {
    hide Apply;
    assert Enabled(s, PortSends(port));
  }

  lemma FreshWaits(s: State, step: Step, port: nat, n: nat)
    requires Fresh(s, port) && Enabled(s, step)
    ensures step != GiveUp(port) && step != StartSession(port, n)
  {
  }

  lemma {:induction false} SendsToFresh(s: State, steps: seq<Step>, port: nat, n: nat)
    requires Inv(s) && IsRun(s, steps) && Fresh(s, port)
    ensures SendsTo(s, steps, port, n) <==> ServedBy(steps, port, n, PortOf(s, port).n == n)
    decreases |steps|
  {
    hide Inv, Apply, Enabled, Fresh, PortOf;
    if steps != [] {
      if steps[0] == PortSends(port) {
        FreshSends(s, steps, port, n);
      } else {
        FreshWaits(s, steps[0], port, n);
        FreshStays(s, steps[0], port);
        InvStep(s, steps[0]);
        SendsToFresh(Apply(s, steps[0]), steps[1..], port, n);
      }
    }
  }

  lemma {:induction false} SendsToNew(s: State, steps: seq<Step>, port: nat, n: nat)
    requires Inv(s) && IsRun(s, steps) && Looking(s, port)
    ensures SendsTo(s, steps, port, n) <==> ServedBy(steps, port, n, false)
    decreases |steps|
  {
    hide Inv, Apply, Enabled, Fresh, Looking;
    if steps != [] && steps[0] != GiveUp(port) {
      var t := Apply(s, steps[0]);
      LookingGoesOn(s, steps[0], port);
      InvStep(s, steps[0]);
      if steps[0].StartSession? && steps[0].port == port {
        SendsToFresh(t, steps[1..], port, n);
      } else {
        SendsToNew(t, steps[1..], port, n);
      }
    }
  }

  /** A first datagram: over any run it ends up in the channel of session `n` if and only if the port
      starts `n` for it and then sends, before it gives up. */
  lemma UnknownUserServed(before: seq<Step>, arrival: Step, after: seq<Step>, n: nat)
    requires arrival.FromUser? && IsRun(INIT, before) && Enabled(Exec(INIT, before), arrival)
    requires (arrival.port, arrival.user) !in Exec(INIT, before).users
    requires IsRun(Apply(Exec(INIT, before), arrival), after)
    ensures HasUp(Exec(Apply(Exec(INIT, before), arrival), after), n, |FromPorts(before)|)
            <==> ServedBy(after, arrival.port, n, false)
  {
    var s := Exec(INIT, before);
    var r := Apply(s, arrival);
    assert Looking(r, arrival.port);
    hide Apply, HasUp, FromPorts, Inv, Looking;
    InitInv();
    InvariantHolds(INIT, before);
    InvStep(s, arrival);
    UserDeliveredExactly(before, arrival, after, n);
    SendsToNew(r, after, arrival.port, n);
  }

  // ---- what a new session gets ----

  /** The flow the port claimed last: the one that was queued longest. */
  function LastClaimed(s: State, steps: seq<Step>, port: nat, last: nat): nat
    requires IsRun(s, steps)
    decreases |steps|
  {
    if steps == [] then last
    else LastClaimed(Apply(s, steps[0]), steps[1..], port, if steps[0] == Claim(port) then s.flowCh[0] else last)
  }

  /** The user whose datagram the port read last. */
  function LastUser(steps: seq<Step>, port: nat, last: User): User {
    if steps == [] then last
    else LastUser(steps[1..], port, if steps[0].FromUser? && steps[0].port == port then steps[0].user else last)
  }

  /** What a port looks for is for the user it read last, with the flow it claimed last. */
  predicate OnBehalf(s: State, port: nat, user: User, f: nat) {
    && (Looking(s, port) ==> PortOf(s, port).user == user)
    && (PortOf(s, port).Claimed? ==> PortOf(s, port).f == f)
  }

  lemma OnBehalfStep(s: State, step: Step, port: nat, user: User, f: nat)
    requires Enabled(s, step) && OnBehalf(s, port, user, f)
    ensures OnBehalf(Apply(s, step), port, if step.FromUser? && step.port == port then step.user else user,
                     if step == Claim(port) then s.flowCh[0] else f)
  {
    match step
    case ReaderGoesOn => ReaderSide(s);
    case _ =>
  }

  lemma {:induction false} OnBehalfHolds(s: State, steps: seq<Step>, port: nat, user: User, f: nat)
    requires IsRun(s, steps) && OnBehalf(s, port, user, f)
    ensures OnBehalf(Exec(s, steps), port, LastUser(steps, port, user), LastClaimed(s, steps, port, f))
    decreases |steps|
  {
    hide OnBehalf, Apply, Enabled;
    if steps != [] {
      assert Enabled(s, steps[0]);
      var user' := if steps[0].FromUser? && steps[0].port == port then steps[0].user else user;
      var f' := NextClaimed(s, steps, port, f);
      OnBehalfStep(s, steps[0], port, user, f);
      OnBehalfHolds(Apply(s, steps[0]), steps[1..], port, user', f');
    }
  }

  function NextClaimed(s: State, steps: seq<Step>, port: nat, last: nat): nat
    requires steps != [] && Enabled(s, steps[0])
  {
    if steps[0] == Claim(port) then s.flowCh[0] else last
  }

  /** A session is started for the user whose datagram the port read last and with the flow the port
      claimed last, and from then on the port's map leads that user to it. */
  lemma NewSessionServes(before: seq<Step>, port: nat, n: nat, user: User, f: nat)
    requires IsRun(INIT, before) && Enabled(Exec(INIT, before), StartSession(port, n))
    ensures var t := Apply(Exec(INIT, before), StartSession(port, n));
            var who, flow := LastUser(before, port, user), LastClaimed(INIT, before, port, f);
            && n in t.sessions && t.sessions[n].port == port && t.sessions[n].user == who
            && t.sessions[n].flow == flow && (port, who) in t.users && t.users[(port, who)] == n
  {
    OnBehalfHolds(INIT, before, port, user, f);
  }

  // ---- the queue of flows ----

  function FlowIn(s: State, step: Step): seq<nat> {
    if step.ReaderGoesOn? && s.reader.Queueing? && |s.flowCh| < FLOW_QUEUE_CAP then [s.reader.f] else []
  }

  function FlowOut(s: State, step: Step): seq<nat>
    requires Enabled(s, step)
  {
    if step.Claim? then [s.flowCh[0]] else []
  }

  function FlowsQueued(s: State, steps: seq<Step>): seq<nat>
    requires IsRun(s, steps)
    decreases |steps|
  {
    if steps == [] then [] else FlowIn(s, steps[0]) + FlowsQueued(Apply(s, steps[0]), steps[1..])
  }

  function FlowsClaimed(s: State, steps: seq<Step>): seq<nat>
    requires IsRun(s, steps)
    decreases |steps|
  {
    if steps == [] then [] else FlowOut(s, steps[0]) + FlowsClaimed(Apply(s, steps[0]), steps[1..])
  }

  lemma HeadOff(q: seq<nat>)
    requires q != []
    ensures [q[0]] + q[1..] == q + []
  {
  }

  lemma FlowChAlone(s: State, step: Step)
    requires Enabled(s, step) && !step.ReaderGoesOn? && !step.Claim?
    ensures Apply(s, step).flowCh == s.flowCh
  {
    match step
    case Receive(_, _, _, _) =>
    case FromUser(_, _, _) =>
    case StartSession(_, _) =>
    case _ =>
  }

  lemma FlowsMove(s: State, step: Step)
    requires Enabled(s, step)
    ensures FlowOut(s, step) + Apply(s, step).flowCh == s.flowCh + FlowIn(s, step)
  {
    if step.Claim? {
      HeadOff(s.flowCh);
    } else if !step.ReaderGoesOn? {
      FlowChAlone(s, step);
      hide Apply;
      assert [] + s.flowCh == s.flowCh + [];
    }
  }

  lemma Reassociate(a: seq<nat>, q: seq<nat>, l: seq<nat>, q': seq<nat>, more: seq<nat>, rest: seq<nat>, q'': seq<nat>)
    requires l + q' == q + a && rest + q'' == q' + more
    ensures (l + rest) + q'' == q + (a + more)
  {
    assert (l + rest) + q'' == l + (rest + q'') == l + (q' + more) == (l + q') + more;
  }

  lemma {:induction false} FlowsBalance(s: State, steps: seq<Step>)
    requires IsRun(s, steps)
    ensures FlowsClaimed(s, steps) + Exec(s, steps).flowCh == s.flowCh + FlowsQueued(s, steps)
    decreases |steps|
  {
    hide Apply, Enabled, FlowIn, FlowOut;
    if steps != [] {
      var t := Apply(s, steps[0]);
      FlowsMove(s, steps[0]);
      FlowsBalance(t, steps[1..]);
      Reassociate(FlowIn(s, steps[0]), s.flowCh, FlowOut(s, steps[0]), t.flowCh,
                  FlowsQueued(t, steps[1..]), FlowsClaimed(t, steps[1..]), Exec(s, steps).flowCh);
    }
  }

  /** Over every run the flows claimed, in order, and those still queued are exactly the flows that
      found room in the queue, in order: each is claimed once at most, first come first served. */
  lemma FlowsClaimedOnce(steps: seq<Step>)
    requires IsRun(INIT, steps)
    ensures FlowsClaimed(INIT, steps) + Exec(INIT, steps).flowCh == FlowsQueued(INIT, steps)
  {
    FlowsBalance(INIT, steps);
    assert INIT.flowCh + FlowsQueued(INIT, steps) == FlowsQueued(INIT, steps);
  }

  // ---- the map of flows ----

  lemma ReaderOnEntries(s: State, f: nat)
    requires FlowInv(s) && SingleOwner(s) && Enabled(s, ReaderGoesOn)
    ensures var t := ReaderStep(s);
            && (!Reachable(s, f) && Reachable(t, f) <==> s.reader == Filing(f) && !Reachable(s, f))
            && (Reachable(s, f) && !Reachable(t, f) <==> s.reader == Withdrawing(f) && Reachable(s, f))
  {
    hide FlowsInOrder;
    match s.reader
    case Handing(_, _) =>
    case Filing(_) =>
    case Queueing(_) =>
    case Withdrawing(_) =>
  }

  lemma ReceiveOnEntries(s: State, peer: Peer, data: Payload, authentic: bool, g: nat, f: nat)
    requires FlowInv(s) && s.reader.Idle? && g !in s.flows
    ensures Reachable(ReceiveStep(s, peer, data, authentic, g), f) <==> Reachable(s, f)
  {
    hide FlowsInOrder;
  }

  /** How a flow gets into the map and out of it, over every run: it is filed by the reader that found
      it new, and nothing else; it goes when the reader found the queue full, by the flow reaper, or
      with the end of a session of the same peer, and nothing else. */
  lemma EntriesExactly(steps: seq<Step>, step: Step, f: nat)
    requires IsRun(INIT, steps) && Enabled(Exec(INIT, steps), step)
    ensures var s := Exec(INIT, steps);
            var t := Apply(s, step);
            && (!Reachable(s, f) ==> (Reachable(t, f) <==> Files(s, step, f)))
            && (Reachable(s, f) ==> (!Reachable(t, f) <==> Unfiles(s, step, f)))
  {
    InitInv();
    InvariantHolds(INIT, steps);
    EntriesStep(Exec(INIT, steps), step, f);
  }

  /** What may bring a flow's entry, and what may take it away. */
  predicate Files(s: State, step: Step, f: nat) { step.ReaderGoesOn? && s.reader == Filing(f) }

  predicate Unfiles(s: State, step: Step, f: nat)
    requires Enabled(s, step) && f in s.flows
  {
    || (step.ReaderGoesOn? && s.reader == Withdrawing(f))
    || step == ReapFlow(s.flows[f].peer)
    || (step.EndSession? && s.flows[s.sessions[step.n].flow].peer == s.flows[f].peer)
  }

  lemma EntriesOther(s: State, step: Step, f: nat)
    requires Filed(s) && Enabled(s, step) && !step.ReaderGoesOn? && !step.Receive?
    ensures Reachable(s, f) ==> (!Reachable(Apply(s, step), f) <==> Unfiles(s, step, f))
    ensures !Reachable(s, f) ==> !Reachable(Apply(s, step), f)
  {
    match step
    case ReapFlow(_) =>
    case EndSession(_) =>
    case ToUser(_, _) =>
    case _ => MapUntouched(s, step);
  }

  lemma EntriesStep(s: State, step: Step, f: nat)
    requires Inv(s) && Enabled(s, step)
    ensures !Reachable(s, f) ==> (Reachable(Apply(s, step), f) <==> Files(s, step, f))
    ensures Reachable(s, f) ==> (!Reachable(Apply(s, step), f) <==> Unfiles(s, step, f))
  {
    if step.ReaderGoesOn? {
      ReaderOnEntries(s, f);
      hide ReaderStep, FlowInv, SessionInv, SingleOwner, TakenByOwner;
    } else if step.Receive? {
      ReceiveOnEntries(s, step.peer, step.data, step.authentic, step.f, f);
      hide ReceiveStep, FlowInv, SessionInv, SingleOwner, TakenByOwner;
    } else {
      EntriesOther(s, step, f);
      hide Apply, FlowInv, SessionInv, SingleOwner, TakenByOwner;
    }
  }

  lemma MapUntouched(s: State, step: Step)
    requires Enabled(s, step) && !OnPoolSide(step) && !step.ReapFlow? && !step.EndSession?
    ensures Apply(s, step).udpFlows == s.udpFlows && Apply(s, step).flows == s.flows
  {
  }

  /** A flow in the map has been queued, unless the reader is still at it: one that found the queue
      full leaves no entry behind. */
  ghost predicate Accounted(s: State, queued: seq<nat>) {
    forall f :: Reachable(s, f) ==> f in queued || (InReader(s) && s.reader.f == f)
  }

  lemma AccountedStep(s: State, step: Step, queued: seq<nat>)
    requires Inv(s) && Enabled(s, step) && Accounted(s, queued)
    ensures Accounted(Apply(s, step), queued + FlowIn(s, step))
  {
    var t, now := Apply(s, step), queued + FlowIn(s, step);
    ReaderMovesOn(s, step);
    forall f | Reachable(t, f)
      ensures f in now || (InReader(t) && t.reader.f == f)
    {
      EntriesStep(s, step, f);
      if f in queued {
        assert f in now;
      }
    }
  }

  lemma ReaderMovesOn(s: State, step: Step)
    requires Enabled(s, step)
    ensures var t := Apply(s, step);
            && (step.ReaderGoesOn? && s.reader.Filing? ==> t.reader == Queueing(s.reader.f))
            && (step.ReaderGoesOn? && s.reader.Queueing? ==>
                  if |s.flowCh| < FLOW_QUEUE_CAP then FlowIn(s, step) == [s.reader.f]
                  else t.reader == Withdrawing(s.reader.f))
            && (InReader(s) && !step.ReaderGoesOn? ==> t.reader == s.reader)
  {
    match step
    case Receive(_, _, _, _) =>
    case ReaderGoesOn =>
    case ToUser(_, _) =>
    case _ => PoolUntouched(s, step);
  }

  lemma {:induction false} AccountedHolds(s: State, steps: seq<Step>, queued: seq<nat>)
    requires Inv(s) && IsRun(s, steps) && Accounted(s, queued)
    ensures Accounted(Exec(s, steps), queued + FlowsQueued(s, steps))
    decreases |steps|
  {
    hide Inv, Accounted, Apply, Enabled, FlowIn;
    if steps == [] {
      assert queued + [] == queued;
    } else {
      var t := Apply(s, steps[0]);
      InvStep(s, steps[0]);
      AccountedStep(s, steps[0], queued);
      AccountedHolds(t, steps[1..], queued + FlowIn(s, steps[0]));
      assert (queued + FlowIn(s, steps[0])) + FlowsQueued(t, steps[1..])
          == queued + (FlowIn(s, steps[0]) + FlowsQueued(t, steps[1..]));
    }
  }

  /** Over every run: a flow that datagrams can reach has been queued, or the reader is still at it. */
  lemma ReachableWasQueued(steps: seq<Step>, f: nat)
    requires IsRun(INIT, steps) && Reachable(Exec(INIT, steps), f)
    ensures var s := Exec(INIT, steps); f in FlowsQueued(INIT, steps) || (InReader(s) && s.reader.f == f)
  {
    InitInv();
    AccountedHolds(INIT, steps, []);
    assert [] + FlowsQueued(INIT, steps) == FlowsQueued(INIT, steps);
  }

  // ---- the map of users ----

  /** Session `n` was started for this user last, and neither reaped from the map nor left since. */
  predicate Stands(s: State, steps: seq<Step>, k: PortUser, n: nat, standing: bool)
    requires IsRun(s, steps)
    decreases |steps|
  {
    if steps == [] then standing
    else Stands(Apply(s, steps[0]), steps[1..], k, n, StandsAfter(s, steps[0], k, n, standing))
  }

  predicate StandsAfter(s: State, step: Step, k: PortUser, n: nat, standing: bool)
    requires Enabled(s, step)
  {
    match step
    case StartSession(port, m) => if (port, PortOf(s, port).user) == k then m == n else standing
    case ReapUser(port, user) => standing && (port, user) != k
    case Leave(m) => standing && m != n
    case _ => standing
  }

  predicate LeadsTo(s: State, k: PortUser, n: nat) { k in s.users && s.users[k] == n }

  lemma UsersAlone(s: State, step: Step)
    requires Enabled(s, step) && !step.StartSession? && !step.ReapUser? && !step.Leave?
    ensures Apply(s, step).users == s.users
  {
    match step
    case ReaderGoesOn => ReaderSide(s);
    case _ =>
  }

  lemma StandsStep(s: State, step: Step, k: PortUser, n: nat)
    requires SessionInv(s) && Enabled(s, step)
    ensures LeadsTo(Apply(s, step), k, n) <==> StandsAfter(s, step, k, n, LeadsTo(s, k, n))
  {
    hide SessionsInOrder, PortsHoldRight;
    if step.StartSession? || step.ReapUser? || step.Leave? {
      assert step.Leave? && k in s.users && s.users[k] == step.n ==> SourceOf(s, step.n) == k;
    } else {
      UsersAlone(s, step);
      hide Apply;
    }
  }

  lemma {:induction false} StandsHolds(s: State, steps: seq<Step>, k: PortUser, n: nat)
    requires Inv(s) && IsRun(s, steps)
    ensures LeadsTo(Exec(s, steps), k, n) <==> Stands(s, steps, k, n, LeadsTo(s, k, n))
    decreases |steps|
  {
    if steps != [] {
      StandsStep(s, steps[0], k, n);
      hide Inv, Apply, Enabled, LeadsTo, StandsAfter;
      InvStep(s, steps[0]);
      StandsHolds(Apply(s, steps[0]), steps[1..], k, n);
    }
  }

  /** Over every run a port's map leads a user to session `n` if and only if `n` was started for that
      user last and has neither been reaped from the map nor left since. */
  lemma KnownExactly(steps: seq<Step>, k: PortUser, n: nat)
    requires IsRun(INIT, steps)
    ensures LeadsTo(Exec(INIT, steps), k, n) <==> Stands(INIT, steps, k, n, false)
  {
    InitInv();
    StandsHolds(INIT, steps, k, n);
  }

  // ---- what goes out ----

  /** What a step writes to the user of the session that has flow `f`. */
  function ToUserOf(s: State, step: Step, f: nat): seq<Payload>
    requires Enabled(s, step)
  {
    if step.ToUser? && step.written && s.sessions[step.n].flow == f then [s.flows[f].inbound.queue[0].data] else []
  }

  /** What a step writes to the peer of session `n`. */
  function ToPeerOf(s: State, step: Step, n: nat): seq<Payload>
    requires Enabled(s, step)
  {
    if step == ToPeer(n, true) then [s.sessions[n].toFlow.queue[0].data] else []
  }

  function UserOutput(s: State, steps: seq<Step>, f: nat): seq<Payload>
    requires IsRun(s, steps)
    decreases |steps|
  {
    if steps == [] then [] else ToUserOf(s, steps[0], f) + UserOutput(Apply(s, steps[0]), steps[1..], f)
  }

  function PeerOutput(s: State, steps: seq<Step>, n: nat): seq<Payload>
    requires IsRun(s, steps)
    decreases |steps|
  {
    if steps == [] then [] else ToPeerOf(s, steps[0], n) + PeerOutput(Apply(s, steps[0]), steps[1..], n)
  }

  function WrittenTo(s: State, f: nat): seq<Payload> {
    if f in s.flows then Written(s.flows[f].inbound.taken) else []
  }

  function WrittenFrom(s: State, n: nat): seq<Payload> {
    if n in s.sessions then Written(s.sessions[n].toFlow.taken) else []
  }

  lemma OneMoreWritten(taken: seq<Relay>, r: Relay)
    ensures Written(taken + [r]) == Written(taken) + if r.written then [r.item.data] else []
  {
    assert (taken + [r])[..|taken|] == taken;
  }

  lemma WrittenToStep(s: State, step: Step, f: nat)
    requires Enabled(s, step)
    ensures WrittenTo(Apply(s, step), f) == WrittenTo(s, f) + ToUserOf(s, step, f)
  {
    if step.ToUser? {
      var x := s.flows[s.sessions[step.n].flow].inbound;
      OneMoreWritten(x.taken, Relay(x.queue[0], step.n, step.written));
      hide Written;
    } else {
      NothingTakenStep(s, step);
      FlowsKept(s, step);
      hide Apply, Written;
      assert WrittenTo(s, f) + [] == WrittenTo(s, f);
      assert f in Apply(s, step).flows && f !in s.flows ==> Apply(s, step).flows[f].inbound.taken == [];
      NoneWritten();
    }
  }

  lemma NoneWritten()
    ensures Written([]) == []
  {
  }

  lemma FlowsKept(s: State, step: Step)
    requires Enabled(s, step)
    ensures forall f :: f in s.flows ==> f in Apply(s, step).flows
  {
    if step.Receive? {
    } else {
      FlowKeys(s, step);
      hide Apply;
    }
  }

  lemma WrittenFromStep(s: State, step: Step, n: nat)
    requires Enabled(s, step)
    ensures WrittenFrom(Apply(s, step), n) == WrittenFrom(s, n) + ToPeerOf(s, step, n)
  {
    NoneWritten();
    if step.ToPeer? {
      var x := s.sessions[step.n].toFlow;
      OneMoreWritten(x.taken, Relay(x.queue[0], step.n, step.written));
      hide Written;
    } else {
      TakenStay(s, step, n);
      hide Apply, Written;
      assert WrittenFrom(s, n) + [] == WrittenFrom(s, n);
    }
  }

  lemma TakenStay(s: State, step: Step, n: nat)
    requires Enabled(s, step) && !step.ToPeer?
    ensures n in s.sessions ==> n in Apply(s, step).sessions
                                && Apply(s, step).sessions[n].toFlow.taken == s.sessions[n].toFlow.taken
    ensures n !in s.sessions && n in Apply(s, step).sessions ==> Apply(s, step).sessions[n].toFlow.taken == []
  {
    match step
    case ReaderGoesOn => ReaderSide(s);
    case _ =>
  }

  lemma {:induction false} OutputIsWritten(s: State, steps: seq<Step>, f: nat, n: nat)
    requires IsRun(s, steps)
    ensures WrittenTo(Exec(s, steps), f) == WrittenTo(s, f) + UserOutput(s, steps, f)
    ensures WrittenFrom(Exec(s, steps), n) == WrittenFrom(s, n) + PeerOutput(s, steps, n)
    decreases |steps|
  {
    hide Apply, Enabled, WrittenTo, WrittenFrom, ToUserOf, ToPeerOf;
    if steps == [] {
      assert WrittenTo(s, f) + [] == WrittenTo(s, f) && WrittenFrom(s, n) + [] == WrittenFrom(s, n);
    } else {
      var t := Apply(s, steps[0]);
      WrittenToStep(s, steps[0], f);
      WrittenFromStep(s, steps[0], n);
      OutputIsWritten(t, steps[1..], f, n);
      Regroup(WrittenTo(s, f), ToUserOf(s, steps[0], f), UserOutput(t, steps[1..], f));
      Regroup(WrittenFrom(s, n), ToPeerOf(s, steps[0], n), PeerOutput(t, steps[1..], n));
    }
  }

  /** Isolation of what leaves the sockets, over every interleaving: what goes to the user of session
      `n` are whole datagrams that the pool socket delivered from its flow's peer, in the order they
      came, none twice; what goes to that peer are datagrams its own user sent to its own port,
      likewise. */
  lemma OutputsAreIsolated(steps: seq<Step>, n: nat) returns (down: seq<nat>, up: seq<nat>)
    requires IsRun(INIT, steps) && n in Exec(INIT, steps).sessions
    ensures var s := Exec(INIT, steps);
            var x := s.sessions[n];
            && x.flow in s.flows
            && ReadsOff(FromPool(steps), s.flows[x.flow].peer, UserOutput(INIT, steps, x.flow), down)
            && ReadsOff(FromPorts(steps), (x.port, x.user), PeerOutput(INIT, steps, n), up)
  {
    hide ReadsOff, Written, FromPool, FromPorts, Exec, IsRun;
    down, up := SessionsAreIsolated(steps, n);
    var x := Exec(INIT, steps).sessions[n];
    OutputIsWritten(INIT, steps, x.flow, n);
    assert WrittenTo(INIT, x.flow) + UserOutput(INIT, steps, x.flow) == UserOutput(INIT, steps, x.flow);
    assert WrittenFrom(INIT, n) + PeerOutput(INIT, steps, n) == PeerOutput(INIT, steps, n);
  }

  // ---- nobody gets stuck ----

  lemma PortsGoOn(s: State, port: nat, m: nat)
    requires PortsHoldRight(s) && m !in s.sessions
    ensures Enabled(s, PortSends(port)) <==> PortOf(s, port).Sending?
    ensures PortOf(s, port).Wanting? ==>
              Enabled(s, GiveUp(port)) && (Enabled(s, Claim(port)) <==> s.flowCh != [])
    ensures PortOf(s, port).Claimed? ==> Enabled(s, AnnounceFails(port)) && Enabled(s, StartSession(port, m))
  {
    if PortOf(s, port).Sending? {
      assert HoldsRight(s, port, s.ports[port]);
    }
  }

  /** What a session can do next. */
  predicate GoesOn(s: State, n: nat, written: bool)
    requires n in s.sessions && s.sessions[n].flow in s.flows
  {
    var x := s.sessions[n];
    && (Enabled(s, Leave(n)) <==> x.stage == Serving)
    && (Enabled(s, EndSession(n)) <==> x.stage == Leaving)
    && (Enabled(s, ToPeer(n, written)) <==> x.stage == Serving && x.toFlow.queue != [])
    && (Enabled(s, ToUser(n, written)) <==> x.stage == Serving && s.flows[x.flow].inbound.queue != [])
  }

  /** Over every run: whoever is in the middle of something can go on with it. The pool reader can
      always go on; a port that has a session to send to can send, one that wants a flow can claim one
      exactly when one is queued and can always give up, one that has a flow can start a session or
      find the announcement failed; a session that is being served can write to its user, or to its
      peer, exactly when something is queued for them, and can leave; one that left can end. */
  lemma NobodyIsStuck(steps: seq<Step>, port: nat, n: nat, m: nat, written: bool)
    requires IsRun(INIT, steps) && m !in Exec(INIT, steps).sessions
    ensures var s := Exec(INIT, steps);
            && (Enabled(s, ReaderGoesOn) <==> !s.reader.Idle?)
            && (Enabled(s, PortSends(port)) <==> PortOf(s, port).Sending?)
            && (PortOf(s, port).Wanting? ==>
                  Enabled(s, GiveUp(port)) && (Enabled(s, Claim(port)) <==> s.flowCh != []))
            && (PortOf(s, port).Claimed? ==> Enabled(s, AnnounceFails(port)) && Enabled(s, StartSession(port, m)))
            && (n in s.sessions ==> s.sessions[n].flow in s.flows && GoesOn(s, n, written))
  {
    hide Enabled, GoesOn, PortOf, FlowInv, SessionsInOrder, PortsHoldRight, UsersFiled, SingleOwner, TakenByOwner;
    InitInv();
    InvariantHolds(INIT, steps);
    var s := Exec(INIT, steps);
    PortsGoOn(s, port, m);
    FlowsAreThere(s, n);
    ReaderCanGoOn(s);
    if n in s.sessions {
      SessionGoesOn(s, n, written);
    }
  }

  lemma FlowsAreThere(s: State, n: nat)
    requires FlowInv(s) && SingleOwner(s)
    ensures !s.reader.Idle? ==> s.reader.f in s.flows
    ensures n in s.sessions ==> s.sessions[n].flow in s.flows
  {
    hide FlowsInOrder;
  }

  lemma ReaderCanGoOn(s: State)
    requires !s.reader.Idle? ==> s.reader.f in s.flows
    ensures Enabled(s, ReaderGoesOn) <==> !s.reader.Idle?
  {
  }

  lemma SessionGoesOn(s: State, n: nat, written: bool)
    requires n in s.sessions && s.sessions[n].flow in s.flows
    ensures GoesOn(s, n, written)
  {
  }

  // ---- the end of a session ----

  /** The session has ended, and nothing in these steps is its doing. */
  predicate Silent(steps: seq<Step>, n: nat) {
    forall i :: 0 <= i < |steps| ==>
      match steps[i]
      case ToPeer(m, _) => m != n
      case ToUser(m, _) => m != n
      case Leave(m) => m != n
      case EndSession(m) => m != n
      case _ => true
  }

  lemma EndedStays(s: State, step: Step, n: nat)
    requires Enabled(s, step) && n in s.sessions && s.sessions[n].stage == Ended
    ensures n in Apply(s, step).sessions && Apply(s, step).sessions[n].stage == Ended && Silent([step], n)
  {
    match step
    case ReaderGoesOn => ReaderSide(s);
    case _ =>
  }

  /** Over every run a session ends once, and after that it writes, leaves and ends no more. */
  lemma EndsOnce(before: seq<Step>, n: nat, after: seq<Step>)
    requires IsRun(INIT, before) && Enabled(Exec(INIT, before), EndSession(n))
    requires IsRun(Apply(Exec(INIT, before), EndSession(n)), after)
    ensures Silent(after, n)
  {
    EndedIsFinal(Apply(Exec(INIT, before), EndSession(n)), after, n);
  }

  lemma {:induction false} EndedIsFinal(s: State, steps: seq<Step>, n: nat)
    requires IsRun(s, steps) && n in s.sessions && s.sessions[n].stage == Ended
    ensures n in Exec(s, steps).sessions && Exec(s, steps).sessions[n].stage == Ended && Silent(steps, n)
    decreases |steps|
  {
    hide Apply, Enabled;
    if steps != [] {
      EndedStays(s, steps[0], n);
      EndedIsFinal(Apply(s, steps[0]), steps[1..], n);
      assert [steps[0]][0] == steps[0];
      assert forall i :: 0 < i < |steps| ==> steps[i] == steps[1..][i - 1];
    }
  }
}
