/** Mode "udp" (udpcarrier.go) over whole runs: the reader of the pool socket, the reader of every
    forwarded port, the reapers and the session goroutines, interleaved in every way. One step per
    critical section or channel operation; a goroutine's own socket read or write, which touches
    nothing shared, belongs to the step next to it. What the sockets deliver is logged before any
    lookup, so that the results can say whose datagrams went where. */
module UdpRuns {
  import opened UdpCarrier

  // ---- state ----

  /** A datagram as a socket delivered it. */
  datatype Packet<S> = Packet(source: S, data: Payload)

  type PortUser = (nat, User)

  /** A datagram on its way, with its place in the log of its socket; nothing in a step depends on
      the place. */
  datatype Item = Item(at: nat, data: Payload)

  /** An item a session took from a channel, which session, and whether the write succeeded. */
  datatype Relay = Relay(item: Item, session: nat, written: bool)

  /** A channel and what has been taken from it. */
  datatype Channel = Channel(queue: seq<Item>, taken: seq<Relay>)

  const EMPTY := Channel([], [])

  datatype Flow = Flow(peer: Peer, inbound: Channel)

  /** `Starting`: in the port's map, its first packet not sent to it yet. `Leaving`: out of that map,
      its flow's entry still to be deleted. */
  datatype Stage = Starting | Serving | Leaving | Ended

  datatype Session = Session(port: nat, user: User, flow: nat, toFlow: Channel, stage: Stage)

  /** The single reader of the pool socket: idle, about to hand a datagram to a flow, about to file a
      new flow, to queue it, or to take it out of the map again. */
  datatype Reader = Idle | Handing(f: nat, item: Item) | Filing(f: nat) | Queueing(f: nat) | Withdrawing(f: nat)

  /** The single reader of a port: idle, about to send to a session, wanting a flow for a new user,
      or holding a claimed one. */
  datatype Port = Free | Sending(n: nat, item: Item) | Wanting(user: User, item: Item)
                | Claimed(user: User, item: Item, f: nat)

  /** Who has a flow object in hand; no step looks at this, it only records. */
  datatype Owner = ByReader | InQueue | ByPort(port: nat) | BySession(n: nat) | Discarded

  /** `received`: every datagram the pool socket delivered; `sent`: every one the ports' sockets did. */
  datatype State = State(received: seq<Packet<Peer>>, sent: seq<Packet<PortUser>>,
                         flows: map<nat, Flow>, udpFlows: map<Peer, nat>, flowCh: seq<nat>,
                         reader: Reader, ports: map<nat, Port>, sessions: map<nat, Session>,
                         users: map<PortUser, nat>, owner: map<nat, Owner>)

  const INIT := State([], [], map[], map[], [], Idle, map[], map[], map[], map[])

  datatype Step =
    | Receive(peer: Peer, data: Payload, authentic: bool, f: nat)
    | ReaderGoesOn
    | ReapFlow(peer: Peer)
    | FromUser(port: nat, user: User, data: Payload)
    | PortSends(port: nat)
    | Claim(port: nat)
    | AnnounceFails(port: nat)
    | GiveUp(port: nat)
    | StartSession(port: nat, n: nat)
    | ReapUser(port: nat, user: User)
    | ToPeer(n: nat, written: bool)
    | ToUser(n: nat, written: bool)
    | Leave(n: nat)
    | EndSession(n: nat)

  function PortOf(s: State, port: nat): Port { if port in s.ports then s.ports[port] else Free }

  predicate IsServing(s: State, n: nat) { n in s.sessions && s.sessions[n].stage == Serving }

  predicate Enabled(s: State, step: Step) {
    match step
    case Receive(peer, data, authentic, f) => s.reader.Idle? && f !in s.flows
    case ReaderGoesOn => !s.reader.Idle? && s.reader.f in s.flows
    case ReapFlow(peer) => peer in s.udpFlows
    case FromUser(port, user, data) => PortOf(s, port).Free?
    case PortSends(port) => PortOf(s, port).Sending? && PortOf(s, port).n in s.sessions
    case Claim(port) => PortOf(s, port).Wanting? && s.flowCh != []
    case AnnounceFails(port) => PortOf(s, port).Claimed?
    case GiveUp(port) => PortOf(s, port).Wanting?
    case StartSession(port, n) => PortOf(s, port).Claimed? && n !in s.sessions
    case ReapUser(port, user) => (port, user) in s.users
    case ToPeer(n, written) => IsServing(s, n) && s.sessions[n].toFlow.queue != []
    case ToUser(n, written) => IsServing(s, n) && s.sessions[n].flow in s.flows
                               && s.flows[s.sessions[n].flow].inbound.queue != []
    case Leave(n) => IsServing(s, n)
    case EndSession(n) => n in s.sessions && s.sessions[n].stage == Leaving && s.sessions[n].flow in s.flows
  }

  function Pushed(c: Channel, item: Item): Channel { c.(queue := PushedOrDropped(c.queue, item)) }

  function Taken(c: Channel, n: nat, written: bool): Channel
    requires c.queue != []
  {
    Channel(c.queue[1..], c.taken + [Relay(c.queue[0], n, written)])
  }

  function ReaderStep(s: State): State
    requires Enabled(s, ReaderGoesOn)
  {
    match s.reader
    case Handing(f, item) =>
      s.(flows := s.flows[f := s.flows[f].(inbound := Pushed(s.flows[f].inbound, item))], reader := Idle)
    case Filing(f) => s.(udpFlows := s.udpFlows[s.flows[f].peer := f], reader := Queueing(f))
    case Queueing(f) =>
      if |s.flowCh| < FLOW_QUEUE_CAP
      then s.(flowCh := s.flowCh + [f], reader := Idle, owner := s.owner[f := InQueue])
      else s.(reader := Withdrawing(f))
    case Withdrawing(f) =>
      s.(udpFlows := s.udpFlows - {s.flows[f].peer}, reader := Idle, owner := s.owner[f := Discarded])
  }

  function ReceiveStep(s: State, peer: Peer, data: Payload, authentic: bool, f: nat): State {
    var t := s.(received := s.received + [Packet(peer, data)]);
    if peer in s.udpFlows then t.(reader := Handing(s.udpFlows[peer], Item(|s.received|, data)))
    else if authentic then t.(flows := s.flows[f := Flow(peer, EMPTY)], reader := Filing(f),
                              owner := s.owner[f := ByReader])
    else t
  }

  function FromUserStep(s: State, port: nat, user: User, data: Payload): State {
    var item := Item(|s.sent|, data);
    s.(sent := s.sent + [Packet((port, user), data)],
       ports := s.ports[port := if (port, user) in s.users then Sending(s.users[(port, user)], item)
                                else Wanting(user, item)])
  }

  function PortSendsStep(s: State, port: nat): State
    requires Enabled(s, PortSends(port))
  {
    var p := PortOf(s, port);
    var x := s.sessions[p.n];
    s.(ports := s.ports[port := Free],
       sessions := s.sessions[p.n := x.(toFlow := Pushed(x.toFlow, p.item),
                                        stage := if x.stage == Starting then Serving else x.stage)])
  }

  function ClaimStep(s: State, port: nat): State
    requires Enabled(s, Claim(port))
  {
    var p := PortOf(s, port);
    s.(flowCh := s.flowCh[1..], ports := s.ports[port := Claimed(p.user, p.item, s.flowCh[0])],
       owner := s.owner[s.flowCh[0] := ByPort(port)])
  }

  function AnnounceFailsStep(s: State, port: nat): State
    requires Enabled(s, AnnounceFails(port))
  {
    var p := PortOf(s, port);
    s.(ports := s.ports[port := Wanting(p.user, p.item)], owner := s.owner[p.f := Discarded])
  }

  function StartSessionStep(s: State, port: nat, n: nat): State
    requires Enabled(s, StartSession(port, n))
  {
    var p := PortOf(s, port);
    s.(ports := s.ports[port := Sending(n, p.item)], users := s.users[(port, p.user) := n],
       owner := s.owner[p.f := BySession(n)],
       sessions := s.sessions[n := Session(port, p.user, p.f, EMPTY, Starting)])
  }

  function ToPeerStep(s: State, n: nat, written: bool): State
    requires Enabled(s, ToPeer(n, written))
  {
    var x := s.sessions[n];
    s.(sessions := s.sessions[n := x.(toFlow := Taken(x.toFlow, n, written))])
  }

  function ToUserStep(s: State, n: nat, written: bool): State
    requires Enabled(s, ToUser(n, written))
  {
    var f := s.sessions[n].flow;
    s.(flows := s.flows[f := s.flows[f].(inbound := Taken(s.flows[f].inbound, n, written))])
  }

  function LeaveStep(s: State, n: nat): State
    requires Enabled(s, Leave(n))
  {
    var x := s.sessions[n];
    var key := (x.port, x.user);
    s.(sessions := s.sessions[n := x.(stage := Leaving)],
       users := if key in s.users && s.users[key] == n then s.users - {key} else s.users)
  }

  function EndSessionStep(s: State, n: nat): State
    requires Enabled(s, EndSession(n))
  {
    var x := s.sessions[n];
    s.(sessions := s.sessions[n := x.(stage := Ended)], udpFlows := s.udpFlows - {s.flows[x.flow].peer})
  }

  function Apply(s: State, step: Step): State
    requires Enabled(s, step)
  {
    match step
    case Receive(peer, data, authentic, f) => ReceiveStep(s, peer, data, authentic, f)
    case ReaderGoesOn => ReaderStep(s)
    case ReapFlow(peer) => s.(udpFlows := s.udpFlows - {peer})
    case FromUser(port, user, data) => FromUserStep(s, port, user, data)
    case PortSends(port) => PortSendsStep(s, port)
    case Claim(port) => ClaimStep(s, port)
    case AnnounceFails(port) => AnnounceFailsStep(s, port)
    case GiveUp(port) => s.(ports := s.ports[port := Free])
    case StartSession(port, n) => StartSessionStep(s, port, n)
    case ReapUser(port, user) => s.(users := s.users - {(port, user)})
    case ToPeer(n, written) => ToPeerStep(s, n, written)
    case ToUser(n, written) => ToUserStep(s, n, written)
    case Leave(n) => LeaveStep(s, n)
    case EndSession(n) => EndSessionStep(s, n)
  }

  predicate IsRun(s: State, steps: seq<Step>)
    decreases |steps|
  {
    steps == [] || (Enabled(s, steps[0]) && IsRun(Apply(s, steps[0]), steps[1..]))
  }

  function Exec(s: State, steps: seq<Step>): State
    requires IsRun(s, steps)
    decreases |steps|
  {
    if steps == [] then s else Exec(Apply(s, steps[0]), steps[1..])
  }

  // ---- one channel ----

  /** What went into a channel: what was taken, then what is still queued. */
  function Items(c: Channel): (items: seq<Item>)
    ensures |items| == |c.taken| + |c.queue|
    ensures forall i :: 0 <= i < |c.taken| ==> items[i] == c.taken[i].item
    ensures forall i :: 0 <= i < |c.queue| ==> items[|c.taken| + i] == c.queue[i]
  {
    seq(|c.taken|, i requires 0 <= i < |c.taken| => c.taken[i].item) + c.queue
  }

  /** Datagrams of this source, in the order of the log, from before place `bound`. */
  ghost predicate InLog<S>(log: seq<Packet<S>>, source: S, items: seq<Item>, bound: nat) {
    && (forall i :: 0 <= i < |items| ==>
          items[i].at < bound && items[i].at < |log| && log[items[i].at] == Packet(source, items[i].data))
    && (forall i, j :: 0 <= i < j < |items| ==> items[i].at < items[j].at)
  }

  /** Everything that went into the channel is such a datagram. */
  ghost predicate InOrder<S>(log: seq<Packet<S>>, source: S, c: Channel, bound: nat) {
    |c.queue| <= CHANNEL_SLOTS && bound <= |log| && InLog(log, source, Items(c), bound)
  }

  lemma EmptyInOrder<S>(log: seq<Packet<S>>, source: S, bound: nat)
    requires bound <= |log|
    ensures InOrder(log, source, EMPTY, bound)
  {
  }

  lemma Widen<S>(log: seq<Packet<S>>, source: S, c: Channel, bound: nat, longer: seq<Packet<S>>, wider: nat)
    requires InOrder(log, source, c, bound) && log <= longer && bound <= wider <= |longer|
    ensures InOrder(longer, source, c, wider)
  {
  }

  lemma PushItems(c: Channel, item: Item)
    ensures Items(Pushed(c, item)) == if |c.queue| < CHANNEL_SLOTS then Items(c) + [item] else Items(c)
  {
  }

  lemma TakeItems(c: Channel, n: nat, written: bool)
    requires c.queue != []
    ensures Items(Taken(c, n, written)) == Items(c)
  {
    var d := Taken(c, n, written);
    forall i | 0 <= i < |Items(c)|
      ensures Items(d)[i] == Items(c)[i]
    {
      assert i > |c.taken| ==> c.queue[i - |c.taken|] == d.queue[i - |c.taken| - 1];
    }
  }

  lemma InLogAppend<S>(log: seq<Packet<S>>, source: S, items: seq<Item>, item: Item)
    requires InLog(log, source, items, item.at)
    requires item.at < |log| && log[item.at] == Packet(source, item.data)
    ensures InLog(log, source, items + [item], |log|)
  {
  }

  lemma InLogWider<S>(log: seq<Packet<S>>, source: S, items: seq<Item>, bound: nat, wider: nat)
    requires InLog(log, source, items, bound) && bound <= wider
    ensures InLog(log, source, items, wider)
  {
  }

  lemma PushKeepsOrder<S>(log: seq<Packet<S>>, source: S, c: Channel, item: Item)
    requires InOrder(log, source, c, item.at) && item.at < |log| && log[item.at] == Packet(source, item.data)
    ensures InOrder(log, source, Pushed(c, item), |log|)
  {
    hide Items, InLog;
    PushItems(c, item);
    if |c.queue| < CHANNEL_SLOTS {
      InLogAppend(log, source, Items(c), item);
    } else {
      InLogWider(log, source, Items(c), item.at, |log|);
    }
  }

  lemma TakeKeepsOrder<S>(log: seq<Packet<S>>, source: S, c: Channel, bound: nat, n: nat, written: bool)
    requires InOrder(log, source, c, bound) && c.queue != []
    ensures InOrder(log, source, Taken(c, n, written), bound)
  {
    hide Items, InLog;
    TakeItems(c, n, written);
  }

  // ---- flows ----

  /** The newest datagram of the pool socket is in the reader's hand or handled. */
  function FlowBound(s: State): nat { if s.reader.Handing? then s.reader.item.at else |s.received| }

  /** The reader's datagram came from the peer of the flow it is handed to. */
  ghost predicate HandingRight(s: State) {
    s.reader.Handing? ==>
      && s.reader.f in s.flows && s.reader.item.at < |s.received|
      && s.received[s.reader.item.at] == Packet(s.flows[s.reader.f].peer, s.reader.item.data)
  }

  ghost predicate FlowsInOrder(s: State) {
    forall f :: f in s.flows ==> InOrder(s.received, s.flows[f].peer, s.flows[f].inbound, FlowBound(s))
  }

  /** The map files every flow under its own peer. */
  ghost predicate Filed(s: State) {
    forall k :: k in s.udpFlows ==> s.udpFlows[k] in s.flows && s.flows[s.udpFlows[k]].peer == k
  }

  /** While the reader is busy with a new flow, its peer's entry is that flow or missing. */
  ghost predicate ReaderFiles(s: State) {
    (s.reader.Filing? || s.reader.Queueing? || s.reader.Withdrawing?) && s.reader.f in s.flows ==>
      var peer := s.flows[s.reader.f].peer;
      peer in s.udpFlows ==> !s.reader.Filing? && s.udpFlows[peer] == s.reader.f
  }

  ghost predicate FlowInv(s: State) {
    HandingRight(s) && FlowsInOrder(s) && Filed(s) && ReaderFiles(s)
  }

  /** Nothing but entries of the map going away. */
  lemma FlowFrame(s: State, t: State)
    requires FlowInv(s) && t.received == s.received && t.flows == s.flows && t.reader == s.reader
    requires forall k :: k in t.udpFlows ==> k in s.udpFlows && t.udpFlows[k] == s.udpFlows[k]
    ensures FlowInv(t)
  {
    hide InOrder;
  }

  lemma FlowsWiden(s: State, t: State)
    requires FlowsInOrder(s) && s.received <= t.received && FlowBound(s) <= FlowBound(t) <= |t.received|
    requires forall g :: g in t.flows ==>
               (g in s.flows && t.flows[g] == s.flows[g]) || t.flows[g].inbound == EMPTY
    ensures FlowsInOrder(t)
  {
    hide InOrder;
    forall g | g in t.flows
      ensures InOrder(t.received, t.flows[g].peer, t.flows[g].inbound, FlowBound(t))
    {
      if g in s.flows && t.flows[g] == s.flows[g] {
        Widen(s.received, s.flows[g].peer, s.flows[g].inbound, FlowBound(s), t.received, FlowBound(t));
      } else {
        EmptyInOrder(t.received, t.flows[g].peer, FlowBound(t));
      }
    }
  }

  lemma ReceiveFlows(s: State, peer: Peer, data: Payload, authentic: bool, f: nat)
    requires FlowsInOrder(s) && s.reader.Idle? && f !in s.flows
    ensures FlowsInOrder(ReceiveStep(s, peer, data, authentic, f))
  {
    var t := ReceiveStep(s, peer, data, authentic, f);
    assert t.received == s.received + [Packet(peer, data)];
    assert t.flows == s.flows || t.flows == s.flows[f := Flow(peer, EMPTY)];
    assert |s.received| <= FlowBound(t) <= |t.received|;
    hide ReceiveStep, FlowsInOrder;
    FlowsWiden(s, t);
  }

  lemma ReceiveFiles(s: State, peer: Peer, data: Payload, authentic: bool, f: nat)
    requires Filed(s) && s.reader.Idle? && f !in s.flows
    ensures var t := ReceiveStep(s, peer, data, authentic, f); HandingRight(t) && Filed(t) && ReaderFiles(t)
  {
  }

  lemma FlowReceive(s: State, peer: Peer, data: Payload, authentic: bool, f: nat)
    requires FlowInv(s) && s.reader.Idle? && f !in s.flows
    ensures FlowInv(ReceiveStep(s, peer, data, authentic, f))
  {
    hide ReceiveStep, FlowsInOrder, Filed, HandingRight, ReaderFiles;
    ReceiveFlows(s, peer, data, authentic, f);
    ReceiveFiles(s, peer, data, authentic, f);
  }

  lemma FlowHanding(s: State)
    requires FlowInv(s) && Enabled(s, ReaderGoesOn) && s.reader.Handing?
    ensures FlowInv(ReaderStep(s))
  {
    hide InOrder;
    var t := ReaderStep(s);
    var x := s.flows[s.reader.f];
    PushKeepsOrder(s.received, x.peer, x.inbound, s.reader.item);
    forall g | g in s.flows && g != s.reader.f
      ensures InOrder(t.received, s.flows[g].peer, s.flows[g].inbound, FlowBound(t))
    {
      Widen(s.received, s.flows[g].peer, s.flows[g].inbound, FlowBound(s), t.received, FlowBound(t));
    }
  }

  /** The map and the reader change, the flows and the log do not. */
  lemma FlowMapChanges(s: State, t: State)
    requires FlowInv(s) && t.received == s.received && t.flows == s.flows
    requires !s.reader.Handing? && !t.reader.Handing? && Filed(t) && ReaderFiles(t)
    ensures FlowInv(t)
  {
    FlowsUntouched(s, t);
    hide FlowsInOrder, Filed, ReaderFiles;
  }

  lemma FlowFiling(s: State)
    requires FlowInv(s) && Enabled(s, ReaderGoesOn) && !s.reader.Handing?
    ensures FlowInv(ReaderStep(s))
  {
    hide FlowsInOrder, HandingRight;
    var t := ReaderStep(s);
    FilingKeepsMap(s);
    hide Filed, ReaderFiles;
    FlowMapChanges(s, t);
  }

  lemma FilingKeepsMap(s: State)
    requires Filed(s) && ReaderFiles(s) && Enabled(s, ReaderGoesOn) && !s.reader.Handing?
    ensures Filed(ReaderStep(s)) && ReaderFiles(ReaderStep(s))
  {
    match s.reader
    case Filing(f) =>
    case Queueing(f) =>
    case Withdrawing(f) =>
  }

  lemma FlowsUntouched(s: State, t: State)
    requires FlowsInOrder(s) && t.received == s.received && t.flows == s.flows && FlowBound(t) == FlowBound(s)
    ensures FlowsInOrder(t)
  {
  }

  lemma FlowToUser(s: State, n: nat, written: bool)
    requires FlowInv(s) && Enabled(s, ToUser(n, written))
    ensures FlowInv(Apply(s, ToUser(n, written)))
  {
    hide InOrder;
    var x := s.flows[s.sessions[n].flow];
    TakeKeepsOrder(s.received, x.peer, x.inbound, FlowBound(s), n, written);
  }

  lemma FlowStep(s: State, step: Step)
    requires FlowInv(s) && Enabled(s, step)
    ensures FlowInv(Apply(s, step))
  {
    hide FlowInv;
    match step
    case Receive(peer, data, authentic, f) => FlowReceive(s, peer, data, authentic, f);
    case ReaderGoesOn => if s.reader.Handing? { FlowHanding(s); } else { FlowFiling(s); }
    case ToUser(n, written) => FlowToUser(s, n, written);
    case _ => FlowFrame(s, Apply(s, step));
  }

  // ---- sessions and ports ----

  function SourceOf(s: State, n: nat): PortUser
    requires n in s.sessions
  {
    (s.sessions[n].port, s.sessions[n].user)
  }

  /** The newest datagram for a session is in its port's hand or handled. */
  function SessionBound(s: State, n: nat): nat
    requires n in s.sessions
  {
    var p := PortOf(s, s.sessions[n].port);
    if p.Sending? && p.n == n then p.item.at else |s.sent|
  }

  ghost predicate SessionsInOrder(s: State) {
    forall n :: n in s.sessions ==> InOrder(s.sent, SourceOf(s, n), s.sessions[n].toFlow, SessionBound(s, n))
  }

  predicate IsOf(log: seq<Packet<PortUser>>, item: Item, source: PortUser) {
    item.at < |log| && log[item.at] == Packet(source, item.data)
  }

  /** The datagram in a port's hand came from the user it is meant for. */
  predicate HoldsRight(s: State, port: nat, p: Port) {
    match p
    case Free => true
    case Sending(n, item) => n in s.sessions && s.sessions[n].port == port && IsOf(s.sent, item, SourceOf(s, n))
    case Wanting(user, item) => IsOf(s.sent, item, (port, user))
    case Claimed(user, item, f) => IsOf(s.sent, item, (port, user))
  }

  ghost predicate PortsHoldRight(s: State) {
    forall p :: p in s.ports ==> HoldsRight(s, p, s.ports[p])
  }

  /** A port's map leads each user to a session of that user. */
  ghost predicate UsersFiled(s: State) {
    forall k :: k in s.users ==> s.users[k] in s.sessions && SourceOf(s, s.users[k]) == k
  }

  ghost predicate SessionInv(s: State) {
    SessionsInOrder(s) && PortsHoldRight(s) && UsersFiled(s)
  }

  lemma SessionFrame(s: State, t: State)
    requires SessionInv(s) && t.sent == s.sent && t.sessions == s.sessions && t.ports == s.ports
    requires forall k :: k in t.users ==> k in s.users && t.users[k] == s.users[k]
    ensures SessionInv(t)
  {
    hide InOrder;
    assert forall n :: n in s.sessions ==> SessionBound(t, n) == SessionBound(s, n);
  }

  lemma SessionFromUser(s: State, port: nat, user: User, data: Payload)
    requires SessionInv(s) && PortOf(s, port).Free?
    ensures SessionInv(FromUserStep(s, port, user, data))
  {
    hide InOrder;
    var t := FromUserStep(s, port, user, data);
    forall n | n in t.sessions
      ensures InOrder(t.sent, SourceOf(t, n), t.sessions[n].toFlow, SessionBound(t, n))
    {
      Widen(s.sent, SourceOf(s, n), s.sessions[n].toFlow, SessionBound(s, n), t.sent, SessionBound(t, n));
    }
  }

  lemma SessionSends(s: State, port: nat)
    requires SessionInv(s) && Enabled(s, PortSends(port))
    ensures SessionInv(Apply(s, PortSends(port)))
  {
    hide InOrder;
    var t := Apply(s, PortSends(port));
    var p := PortOf(s, port);
    assert HoldsRight(s, port, p);
    PushKeepsOrder(s.sent, SourceOf(s, p.n), s.sessions[p.n].toFlow, p.item);
    forall n | n in s.sessions && n != p.n
      ensures InOrder(t.sent, SourceOf(t, n), t.sessions[n].toFlow, SessionBound(t, n))
    {
      assert SessionBound(t, n) == SessionBound(s, n);
    }
  }

  /** A port changes hands with a flow, or gives up. */
  lemma SessionPort(s: State, t: State, port: nat)
    requires SessionInv(s) && t.sent == s.sent && t.sessions == s.sessions && t.users == s.users
    requires !PortOf(s, port).Sending? && port in t.ports && t.ports == s.ports[port := t.ports[port]]
    requires !t.ports[port].Sending? && HoldsRight(s, port, t.ports[port])
    ensures SessionInv(t)
  {
    hide InOrder;
    assert forall n :: n in s.sessions ==> SessionBound(t, n) == SessionBound(s, n);
  }

  lemma StartedInOrder(s: State, port: nat, n: nat)
    requires SessionsInOrder(s) && Enabled(s, StartSession(port, n)) && HoldsRight(s, port, PortOf(s, port))
    ensures SessionsInOrder(StartSessionStep(s, port, n))
  {
    hide InOrder;
    var t := StartSessionStep(s, port, n);
    var p := PortOf(s, port);
    EmptyInOrder(s.sent, (port, p.user), p.item.at);
    forall m | m in s.sessions
      ensures InOrder(t.sent, SourceOf(t, m), t.sessions[m].toFlow, SessionBound(t, m))
    {
      assert SessionBound(t, m) == SessionBound(s, m);
    }
  }

  lemma StartedRight(s: State, port: nat, n: nat)
    requires PortsHoldRight(s) && UsersFiled(s) && Enabled(s, StartSession(port, n))
    ensures PortsHoldRight(StartSessionStep(s, port, n)) && UsersFiled(StartSessionStep(s, port, n))
    ensures HoldsRight(s, port, PortOf(s, port))
  {
    assert HoldsRight(s, port, PortOf(s, port));
  }

  lemma SessionStarts(s: State, port: nat, n: nat)
    requires SessionInv(s) && Enabled(s, StartSession(port, n))
    ensures SessionInv(Apply(s, StartSession(port, n)))
  {
    hide StartSessionStep, SessionsInOrder, PortsHoldRight, UsersFiled, HoldsRight;
    StartedRight(s, port, n);
    StartedInOrder(s, port, n);
  }

  lemma SessionToPeer(s: State, n: nat, written: bool)
    requires SessionInv(s) && Enabled(s, ToPeer(n, written))
    ensures SessionInv(Apply(s, ToPeer(n, written)))
  {
    hide InOrder;
    var t := Apply(s, ToPeer(n, written));
    TakeKeepsOrder(s.sent, SourceOf(s, n), s.sessions[n].toFlow, SessionBound(s, n), n, written);
    assert forall m :: m in s.sessions ==> SessionBound(t, m) == SessionBound(s, m);
  }

  /** One session only changes its stage. */
  lemma SessionStage(s: State, t: State, n: nat)
    requires SessionInv(s) && n in s.sessions && t.sent == s.sent && t.ports == s.ports
    requires exists g :: t.sessions == s.sessions[n := s.sessions[n].(stage := g)]
    requires forall k :: k in t.users ==> k in s.users && t.users[k] == s.users[k]
    ensures SessionInv(t)
  {
    hide InOrder;
    assert forall m :: m in s.sessions ==> SessionBound(t, m) == SessionBound(s, m);
  }

  lemma SessionPortStep(s: State, step: Step)
    requires SessionInv(s) && Enabled(s, step) && (step.Claim? || step.AnnounceFails? || step.GiveUp?)
    ensures SessionInv(Apply(s, step))
  {
    assert HoldsRight(s, step.port, PortOf(s, step.port));
    hide SessionInv;
    SessionPort(s, Apply(s, step), step.port);
  }

  lemma SessionStageStep(s: State, step: Step)
    requires SessionInv(s) && Enabled(s, step) && (step.Leave? || step.EndSession?)
    ensures SessionInv(Apply(s, step))
  {
    hide SessionInv;
    SessionStage(s, Apply(s, step), step.n);
  }

  /** The steps of the pool socket's side leave ports and sessions alone. */
  lemma PoolSide(s: State, step: Step)
    requires Enabled(s, step)
    requires step.Receive? || step.ReaderGoesOn? || step.ReapFlow? || step.ToUser?
    ensures var t := Apply(s, step);
            t.sent == s.sent && t.sessions == s.sessions && t.ports == s.ports && t.users == s.users
  {
    match step
    case Receive(_, _, _, _) =>
    case ReaderGoesOn => ReaderSide(s);
    case ReapFlow(_) =>
    case ToUser(_, _) =>
  }

  lemma ReaderSide(s: State)
    requires Enabled(s, ReaderGoesOn)
    ensures var t := ReaderStep(s);
            t.sent == s.sent && t.received == s.received && t.sessions == s.sessions && t.ports == s.ports && t.users == s.users
  {
    match s.reader
    case Handing(_, _) =>
    case Filing(_) =>
    case Queueing(_) =>
    case Withdrawing(_) =>
  }

  lemma SessionFrameStep(s: State, step: Step)
    requires SessionInv(s) && Enabled(s, step)
    requires step.Receive? || step.ReaderGoesOn? || step.ReapFlow? || step.ReapUser? || step.ToUser?
    ensures SessionInv(Apply(s, step))
  {
    hide SessionInv;
    if !step.ReapUser? {
      PoolSide(s, step);
      hide Apply, Enabled;
      SessionFrame(s, Apply(s, step));
    } else {
      SessionFrame(s, Apply(s, step));
    }
  }

  lemma SessionStep(s: State, step: Step)
    requires SessionInv(s) && Enabled(s, step)
    ensures SessionInv(Apply(s, step))
  {
    if step.FromUser? {
      SessionFromUser(s, step.port, step.user, step.data);
      return;
    }
    hide SessionInv, Apply, Enabled;
    match step
    case FromUser(_, _, _) =>
    case PortSends(port) => SessionSends(s, port);
    case Claim(_) => SessionPortStep(s, step);
    case AnnounceFails(_) => SessionPortStep(s, step);
    case GiveUp(_) => SessionPortStep(s, step);
    case StartSession(port, n) => SessionStarts(s, port, n);
    case ToPeer(n, written) => SessionToPeer(s, n, written);
    case Leave(_) => SessionStageStep(s, step);
    case EndSession(_) => SessionStageStep(s, step);
    case _ => SessionFrameStep(s, step);
  }

  // ---- who has a flow ----

  /** The reader still owns the flow it is working on. */
  predicate InReader(s: State) { s.reader.Filing? || s.reader.Queueing? || s.reader.Withdrawing? }

  /** Everybody who has a flow is its recorded owner, so no two have the same one; and the queue
      holds each flow at most once. */
  ghost predicate SingleOwner(s: State) {
    && s.owner.Keys == s.flows.Keys
    && (InReader(s) ==> s.reader.f in s.flows && s.owner[s.reader.f] == ByReader)
    && (forall i :: 0 <= i < |s.flowCh| ==> s.flowCh[i] in s.flows && s.owner[s.flowCh[i]] == InQueue)
    && (forall i, j :: 0 <= i < j < |s.flowCh| ==> s.flowCh[i] != s.flowCh[j])
    && (forall p :: p in s.ports && s.ports[p].Claimed? ==>
          s.ports[p].f in s.flows && s.owner[s.ports[p].f] == ByPort(p))
    && (forall n :: n in s.sessions ==>
          s.sessions[n].flow in s.flows && s.owner[s.sessions[n].flow] == BySession(n))
  }

  lemma OwnerReceive(s: State, peer: Peer, data: Payload, authentic: bool, f: nat)
    requires SingleOwner(s) && s.reader.Idle? && f !in s.flows
    ensures SingleOwner(ReceiveStep(s, peer, data, authentic, f))
  {
  }

  lemma OwnerReader(s: State)
    requires SingleOwner(s) && Enabled(s, ReaderGoesOn) && !s.reader.Queueing?
    ensures SingleOwner(ReaderStep(s))
  {
    if !InReader(s) {
      OwnerOther(s, ReaderStep(s));
    }
  }

  lemma OwnerQueues(s: State)
    requires SingleOwner(s) && Enabled(s, ReaderGoesOn) && s.reader.Queueing?
    ensures SingleOwner(ReaderStep(s))
  {
    var t := ReaderStep(s);
    if |s.flowCh| < FLOW_QUEUE_CAP {
      assert forall i :: 0 <= i < |s.flowCh| ==> t.flowCh[i] == s.flowCh[i] && s.flowCh[i] != s.reader.f;
    }
  }

  lemma OwnerClaim(s: State, port: nat)
    requires SingleOwner(s) && Enabled(s, Claim(port))
    ensures SingleOwner(Apply(s, Claim(port)))
  {
    var t := Apply(s, Claim(port));
    assert forall i :: 0 <= i < |t.flowCh| ==> t.flowCh[i] == s.flowCh[i + 1];
  }

  lemma OwnerDrops(s: State, port: nat)
    requires SingleOwner(s) && Enabled(s, AnnounceFails(port))
    ensures SingleOwner(Apply(s, AnnounceFails(port)))
  {
  }

  lemma OwnerStart(s: State, port: nat, n: nat)
    requires SingleOwner(s) && Enabled(s, StartSession(port, n))
    ensures SingleOwner(Apply(s, StartSession(port, n)))
  {
  }

  /** The other steps leave all owners alone. */
  lemma OwnerOther(s: State, t: State)
    requires SingleOwner(s)
    requires t.flows.Keys == s.flows.Keys && t.owner == s.owner && t.flowCh == s.flowCh
    requires InReader(t) ==> t.reader == s.reader
    requires forall p :: p in t.ports && t.ports[p].Claimed? ==> p in s.ports && t.ports[p] == s.ports[p]
    requires t.sessions.Keys == s.sessions.Keys
    requires forall n :: n in s.sessions ==> t.sessions[n].flow == s.sessions[n].flow
    ensures SingleOwner(t)
  {
  }

  lemma OwnerStep(s: State, step: Step)
    requires SingleOwner(s) && Enabled(s, step)
    ensures SingleOwner(Apply(s, step))
  {
    hide SingleOwner;
    match step
    case Receive(peer, data, authentic, f) => OwnerReceive(s, peer, data, authentic, f);
    case ReaderGoesOn => if s.reader.Queueing? { OwnerQueues(s); } else { OwnerReader(s); }
    case Claim(port) => OwnerClaim(s, port);
    case AnnounceFails(port) => OwnerDrops(s, port);
    case StartSession(port, n) => OwnerStart(s, port, n);
    case _ => OwnerOther(s, Apply(s, step));
  }

  /** Only a flow's own session takes from it. */
  ghost predicate TakenByOwner(s: State) {
    forall f, i :: f in s.flows && 0 <= i < |s.flows[f].inbound.taken| ==>
      var n := s.flows[f].inbound.taken[i].session;
      n in s.sessions && s.sessions[n].flow == f
  }

  /** Sessions keep their flow. */
  ghost predicate SessionsStay(s: State, t: State) {
    forall n :: n in s.sessions ==> n in t.sessions && t.sessions[n].flow == s.sessions[n].flow
  }

  /** Nothing more is taken from a flow. */
  ghost predicate NothingTaken(s: State, t: State) {
    forall f :: f in t.flows ==>
      t.flows[f].inbound.taken == if f in s.flows then s.flows[f].inbound.taken else []
  }

  lemma TakenFrame(s: State, t: State)
    requires TakenByOwner(s) && SessionsStay(s, t) && NothingTaken(s, t)
    ensures TakenByOwner(t)
  {
  }

  lemma TakenToUser(s: State, n: nat, written: bool)
    requires TakenByOwner(s) && Enabled(s, ToUser(n, written))
    ensures TakenByOwner(Apply(s, ToUser(n, written)))
  {
  }

  /** Only these three steps touch the pool's side at all. */
  predicate OnPoolSide(step: Step) { step.Receive? || step.ReaderGoesOn? || step.ToUser? }

  lemma PoolUntouched(s: State, step: Step)
    requires Enabled(s, step) && !OnPoolSide(step)
    ensures var t := Apply(s, step);
            t.flows == s.flows && t.received == s.received && t.reader == s.reader
  {
  }

  lemma ReaderTakesNothing(s: State)
    requires Enabled(s, ReaderGoesOn)
    ensures NothingTaken(s, ReaderStep(s))
  {
    match s.reader
    case Handing(_, _) =>
    case Filing(_) =>
    case Queueing(_) =>
    case Withdrawing(_) =>
  }

  lemma ReceiveTakesNothing(s: State, peer: Peer, data: Payload, authentic: bool, f: nat)
    requires f !in s.flows
    ensures NothingTaken(s, ReceiveStep(s, peer, data, authentic, f))
  {
  }

  lemma NothingTakenStep(s: State, step: Step)
    requires Enabled(s, step) && !step.ToUser?
    ensures NothingTaken(s, Apply(s, step))
  {
    if step.Receive? {
      ReceiveTakesNothing(s, step.peer, step.data, step.authentic, step.f);
      hide NothingTaken;
    } else if step.ReaderGoesOn? {
      ReaderTakesNothing(s);
      hide NothingTaken;
    } else {
      PoolUntouched(s, step);
      hide Apply;
    }
  }

  lemma SessionsStayStep(s: State, step: Step)
    requires Enabled(s, step)
    ensures SessionsStay(s, Apply(s, step))
  {
  }

  lemma TakenStep(s: State, step: Step)
    requires TakenByOwner(s) && Enabled(s, step)
    ensures TakenByOwner(Apply(s, step))
  {
    hide TakenByOwner, SessionsStay, NothingTaken;
    if step.ToUser? {
      TakenToUser(s, step.n, step.written);
    } else {
      NothingTakenStep(s, step);
      SessionsStayStep(s, step);
      TakenFrame(s, Apply(s, step));
    }
  }

  // ---- over runs ----

  ghost predicate Inv(s: State) { FlowInv(s) && SessionInv(s) && SingleOwner(s) && TakenByOwner(s) }

  lemma InvStep(s: State, step: Step)
    requires Inv(s) && Enabled(s, step)
    ensures Inv(Apply(s, step))
  {
    hide FlowInv, SessionInv, SingleOwner, TakenByOwner, Apply, Enabled;
    FlowStep(s, step);
    SessionStep(s, step);
    OwnerStep(s, step);
    TakenStep(s, step);
  }

  lemma {:induction false} InvariantHolds(s: State, steps: seq<Step>)
    requires Inv(s) && IsRun(s, steps)
    ensures Inv(Exec(s, steps))
    decreases |steps|
  {
    hide Inv, Apply, Enabled;
    if steps != [] {
      InvStep(s, steps[0]);
      InvariantHolds(Apply(s, steps[0]), steps[1..]);
    }
  }

  /** What the pool socket delivers in a run: a matter of the steps alone, whatever becomes of it. */
  function FromPool(steps: seq<Step>): seq<Packet<Peer>> {
    if steps == [] then [] else PoolPart(steps[0]) + FromPool(steps[1..])
  }

  function PoolPart(step: Step): seq<Packet<Peer>> {
    if step.Receive? then [Packet(step.peer, step.data)] else []
  }

  /** What the ports' sockets deliver. */
  function FromPorts(steps: seq<Step>): seq<Packet<PortUser>> {
    if steps == [] then [] else PortsPart(steps[0]) + FromPorts(steps[1..])
  }

  function PortsPart(step: Step): seq<Packet<PortUser>> {
    if step.FromUser? then [Packet((step.port, step.user), step.data)] else []
  }

  lemma LogStep(s: State, step: Step)
    requires Enabled(s, step)
    ensures var t := Apply(s, step);
            && t.received == s.received + PoolPart(step)
            && t.sent == s.sent + PortsPart(step)
  {
    if step.Receive? {
      assert Apply(s, step) == ReceiveStep(s, step.peer, step.data, step.authentic, step.f);
    } else if step.FromUser? {
      assert Apply(s, step) == FromUserStep(s, step.port, step.user, step.data);
    } else {
      LogUntouched(s, step);
      hide Apply;
    }
  }

  lemma LogUntouched(s: State, step: Step)
    requires Enabled(s, step) && !step.Receive? && !step.FromUser?
    ensures Apply(s, step).received == s.received && Apply(s, step).sent == s.sent
  {
    if step.ReaderGoesOn? {
      ReaderSide(s);
      assert Apply(s, step) == ReaderStep(s);
      hide ReaderStep;
    } else if step.ToUser? {
    } else {
      PortSide(s, step);
    }
  }

  lemma PortSide(s: State, step: Step)
    requires Enabled(s, step) && !OnPoolSide(step) && !step.FromUser?
    ensures Apply(s, step).received == s.received && Apply(s, step).sent == s.sent
  {
  }

  lemma {:induction false} LogsAreWhatArrived(s: State, steps: seq<Step>)
    requires IsRun(s, steps)
    ensures Exec(s, steps).received == s.received + FromPool(steps)
    ensures Exec(s, steps).sent == s.sent + FromPorts(steps)
    decreases |steps|
  {
    hide Apply, Enabled, PoolPart, PortsPart;
    if steps == [] {
      assert s.received + [] == s.received && s.sent + [] == s.sent;
    } else {
      var t := Apply(s, steps[0]);
      LogStep(s, steps[0]);
      LogsAreWhatArrived(t, steps[1..]);
      Regroup(s.received, PoolPart(steps[0]), FromPool(steps[1..]));
      Regroup(s.sent, PortsPart(steps[0]), FromPorts(steps[1..]));
    }
  }

  lemma Regroup<T>(a: seq<T>, b: seq<T>, c: seq<T>)
    ensures (a + b) + c == a + (b + c)
  {
  }

  // ---- isolation ----

  /** What actually went out, in order. */
  function Written(taken: seq<Relay>): seq<Payload> {
    if taken == [] then []
    else Written(taken[..|taken| - 1])
         + if taken[|taken| - 1].written then [taken[|taken| - 1].item.data] else []
  }

  /** `out` is read off the log at increasing places that all hold datagrams of this source. */
  ghost predicate ReadsOff<S>(log: seq<Packet<S>>, source: S, out: seq<Payload>, at: seq<nat>) {
    && |at| == |out|
    && (forall i :: 0 <= i < |at| ==> at[i] < |log| && log[at[i]] == Packet(source, out[i]))
    && (forall i, j :: 0 <= i < j < |at| ==> at[i] < at[j])
  }

  lemma {:induction false} WrittenReadsOff<S>(log: seq<Packet<S>>, source: S, taken: seq<Relay>) returns (at: seq<nat>)
    requires forall i :: 0 <= i < |taken| ==>
               taken[i].item.at < |log| && log[taken[i].item.at] == Packet(source, taken[i].item.data)
    requires forall i, j :: 0 <= i < j < |taken| ==> taken[i].item.at < taken[j].item.at
    ensures ReadsOff(log, source, Written(taken), at)
    ensures forall i :: 0 <= i < |at| ==> taken != [] && at[i] <= taken[|taken| - 1].item.at
  {
    at := [];
    if taken != [] {
      var last := taken[|taken| - 1];
      at := WrittenReadsOff(log, source, taken[..|taken| - 1]);
      if last.written {
        at := at + [last.item.at];
      }
    }
  }

  lemma RelayReadsOff<S>(log: seq<Packet<S>>, source: S, c: Channel, bound: nat) returns (at: seq<nat>)
    requires InOrder(log, source, c, bound)
    ensures ReadsOff(log, source, Written(c.taken), at)
  {
    forall i | 0 <= i < |c.taken|
      ensures c.taken[i].item == Items(c)[i]
    {
    }
    at := WrittenReadsOff(log, source, c.taken);
  }

  /** Isolation, over every interleaving: no two sessions ever have the same flow, and nobody else
      takes from it; what session `n` wrote to its user are whole datagrams that the pool socket
      delivered from that flow's peer, in the order they came, none twice; and what it wrote to the
      peer are datagrams that its own user sent to its own port, likewise. */
  lemma SessionsAreIsolated(steps: seq<Step>, n: nat) returns (down: seq<nat>, up: seq<nat>)
    requires IsRun(INIT, steps) && n in Exec(INIT, steps).sessions
    ensures var s := Exec(INIT, steps);
            var x := s.sessions[n];
            && x.flow in s.flows
            && (forall m :: m in s.sessions && m != n ==> s.sessions[m].flow != x.flow)
            && (forall i :: 0 <= i < |s.flows[x.flow].inbound.taken| ==>
                  s.flows[x.flow].inbound.taken[i].session == n)
            && ReadsOff(FromPool(steps), s.flows[x.flow].peer, Written(s.flows[x.flow].inbound.taken), down)
            && ReadsOff(FromPorts(steps), (x.port, x.user), Written(x.toFlow.taken), up)
  {
    hide InOrder, ReadsOff, Written, FromPool, FromPorts, Exec, IsRun, HandingRight, ReaderFiles, PortsHoldRight;
    InitInv();
    InvariantHolds(INIT, steps);
    LogsAreWhatArrived(INIT, steps);
    var s := Exec(INIT, steps);
    var x := s.sessions[n];
    assert INIT.received + FromPool(steps) == FromPool(steps);
    assert INIT.sent + FromPorts(steps) == FromPorts(steps);
    assert forall m :: m in s.sessions ==> s.owner[s.sessions[m].flow] == BySession(m);
    down := RelayReadsOff(s.received, s.flows[x.flow].peer, s.flows[x.flow].inbound, FlowBound(s));
    up := RelayReadsOff(s.sent, SourceOf(s, n), x.toFlow, SessionBound(s, n));
  }

  lemma InitInv()
    ensures Inv(INIT)
  {
  }

  // ---- loss ----

  /** Datagrams of its peer are handed to this flow. */
  predicate Reachable(s: State, f: nat) {
    f in s.flows && s.flows[f].peer in s.udpFlows && s.udpFlows[s.flows[f].peer] == f
  }

  /** The datagram at place `i` of the pool socket's log went into this flow's channel: it is queued
      there or was taken by the flow's session. */
  ghost predicate Has(s: State, f: nat, i: nat) {
    f in s.flows && exists j :: 0 <= j < |Items(s.flows[f].inbound)| && Items(s.flows[f].inbound)[j].at == i
  }

  /** The reader has the datagram at place `i` in its hand for flow `f`. */
  predicate InHand(s: State, f: nat, i: nat) { s.reader.Handing? && s.reader.f == f && s.reader.item.at == i }

  /** When the reader next goes on, this flow's channel has room. */
  predicate RoomAtHandOff(s: State, steps: seq<Step>, f: nat)
    requires IsRun(s, steps)
    decreases |steps|
  {
    steps != [] &&
    if steps[0].ReaderGoesOn? then f in s.flows && |s.flows[f].inbound.queue| < CHANNEL_SLOTS
    else RoomAtHandOff(Apply(s, steps[0]), steps[1..], f)
  }

  /** The datagram at place `i` is not on its way to this flow any more, and did not get there. */
  ghost predicate Missing(s: State, f: nat, i: nat) {
    i < |s.received| && !Has(s, f, i) && !InHand(s, f, i)
  }

  lemma ItemsAfter(s: State, step: Step, f: nat)
    requires Enabled(s, step) && f in s.flows
    ensures var t := Apply(s, step);
            && f in t.flows
            && Items(t.flows[f].inbound) ==
               (if step.ReaderGoesOn? && s.reader.Handing? && s.reader.f == f
                   && |s.flows[f].inbound.queue| < CHANNEL_SLOTS
                then Items(s.flows[f].inbound) + [s.reader.item] else Items(s.flows[f].inbound))
  {
    hide Items;
    if !OnPoolSide(step) {
      PoolUntouched(s, step);
      hide Apply;
    } else if step.ReaderGoesOn? {
      if s.reader.Handing? {
        PushItems(s.flows[s.reader.f].inbound, s.reader.item);
      }
    } else if step.ToUser? {
      TakeItems(s.flows[s.sessions[step.n].flow].inbound, step.n, step.written);
    }
  }

  lemma FlowKeys(s: State, step: Step)
    requires Enabled(s, step) && !step.Receive?
    ensures Apply(s, step).flows.Keys == s.flows.Keys
  {
    match step
    case ReaderGoesOn =>
    case ToUser(_, _) =>
    case _ =>
  }

  lemma EmptyItems()
    ensures Items(EMPTY) == []
  {
  }

  lemma ReceivedFlow(s: State, peer: Peer, data: Payload, authentic: bool, f: nat, g: nat)
    requires g !in s.flows && g in ReceiveStep(s, peer, data, authentic, f).flows
    ensures ReceiveStep(s, peer, data, authentic, f).flows[g].inbound == EMPTY
  {
  }

  lemma ReceivedItems(s: State, step: Step, f: nat)
    requires Enabled(s, step) && step.Receive? && f in Apply(s, step).flows && f !in s.flows
    ensures Items(Apply(s, step).flows[f].inbound) == []
  {
    hide ReceiveStep, Items;
    ReceivedFlow(s, step.peer, step.data, step.authentic, step.f, f);
    EmptyItems();
  }

  lemma NoNewItems(s: State, step: Step, f: nat, i: nat)
    requires Enabled(s, step) && f !in s.flows
    ensures !Has(Apply(s, step), f, i)
  {
    if step.Receive? {
      if f in Apply(s, step).flows {
        ReceivedItems(s, step, f);
      }
    } else {
      FlowKeys(s, step);
      hide Apply;
    }
  }

  /** Only a datagram that arrives gets into the reader's hand. */
  lemma NotInHand(s: State, step: Step, f: nat, i: nat)
    requires Enabled(s, step) && i < |s.received| && !InHand(s, f, i)
    ensures !InHand(Apply(s, step), f, i)
  {
    match step
    case Receive(_, _, _, _) =>
    case ReaderGoesOn =>
    case _ => assert Apply(s, step).reader == s.reader;
  }

  lemma MissingStep(s: State, step: Step, f: nat, i: nat)
    requires Enabled(s, step) && Missing(s, f, i)
    ensures Missing(Apply(s, step), f, i)
  {
    hide Items, Apply, Enabled, InHand;
    LogStep(s, step);
    NotInHand(s, step, f, i);
    if f in s.flows {
      AppendedItem(s, step, f, i);
    } else {
      NoNewItems(s, step, f, i);
    }
  }

  lemma AppendedItem(s: State, step: Step, f: nat, i: nat)
    requires Enabled(s, step) && f in s.flows && Missing(s, f, i)
    ensures !Has(Apply(s, step), f, i)
  {
    ItemsAfter(s, step, f);
    hide Items, Apply;
  }

  lemma {:induction false} MissingStays(s: State, steps: seq<Step>, f: nat, i: nat)
    requires IsRun(s, steps) && Missing(s, f, i)
    ensures Missing(Exec(s, steps), f, i)
    decreases |steps|
  {
    hide Missing, Apply, Enabled;
    if steps != [] {
      MissingStep(s, steps[0], f, i);
      MissingStays(Apply(s, steps[0]), steps[1..], f, i);
    }
  }

  lemma HasStep(s: State, step: Step, f: nat, i: nat)
    requires Enabled(s, step) && Has(s, f, i)
    ensures Has(Apply(s, step), f, i)
  {
    ItemsAfter(s, step, f);
    hide Items, Apply;
    var j :| 0 <= j < |Items(s.flows[f].inbound)| && Items(s.flows[f].inbound)[j].at == i;
    assert Items(Apply(s, step).flows[f].inbound)[j].at == i;
  }

  lemma {:induction false} HasStays(s: State, steps: seq<Step>, f: nat, i: nat)
    requires IsRun(s, steps) && Has(s, f, i)
    ensures Has(Exec(s, steps), f, i)
    decreases |steps|
  {
    hide Has, Apply, Enabled;
    if steps != [] {
      HasStep(s, steps[0], f, i);
      HasStays(Apply(s, steps[0]), steps[1..], f, i);
    }
  }

  /** The hand-off itself. */
  lemma HandOff(s: State, f: nat, i: nat)
    requires Enabled(s, ReaderGoesOn) && InHand(s, f, i) && i < |s.received| && !Has(s, f, i)
    ensures var t := Apply(s, ReaderGoesOn);
            if |s.flows[f].inbound.queue| < CHANNEL_SLOTS then Has(t, f, i) else Missing(t, f, i)
  {
    ItemsAfter(s, ReaderGoesOn, f);
    hide Items;
    var t := Apply(s, ReaderGoesOn);
    if |s.flows[f].inbound.queue| < CHANNEL_SLOTS {
      assert Items(t.flows[f].inbound)[|Items(s.flows[f].inbound)|].at == i;
    }
  }

  lemma StillInHand(s: State, step: Step, f: nat, i: nat)
    requires Enabled(s, step) && !step.ReaderGoesOn? && InHand(s, f, i) && f in s.flows && !Has(s, f, i)
    ensures var t := Apply(s, step); InHand(t, f, i) && f in t.flows && !Has(t, f, i)
    ensures |s.received| <= |Apply(s, step).received|
  {
    LogStep(s, step);
    ItemsAfter(s, step, f);
    hide Items;
  }

  lemma {:induction false} HandedOrNot(s: State, steps: seq<Step>, f: nat, i: nat)
    requires IsRun(s, steps) && InHand(s, f, i) && f in s.flows && i < |s.received| && !Has(s, f, i)
    ensures Has(Exec(s, steps), f, i) <==> RoomAtHandOff(s, steps, f)
    decreases |steps|
  {
    hide Has, Apply, Enabled;
    if steps != [] {
      var t := Apply(s, steps[0]);
      if steps[0].ReaderGoesOn? {
        HandOff(s, f, i);
        if |s.flows[f].inbound.queue| < CHANNEL_SLOTS {
          HasStays(t, steps[1..], f, i);
        } else {
          MissingStays(t, steps[1..], f, i);
        }
      } else {
        StillInHand(s, steps[0], f, i);
        HandedOrNot(t, steps[1..], f, i);
      }
    }
  }

  /** Loss, exactly. Take any run, a datagram the pool socket then delivers, and any steps after it.
      The datagram ends up in the channel of flow `f`, queued or taken by its session, if and only if
      the map led its peer to `f` when it arrived and the channel had one of its 64 slots free when
      the reader handed it over. It is lost in every other case, a live session or not. */
  lemma DeliveredExactly(before: seq<Step>, arrival: Step, after: seq<Step>, f: nat)
    requires arrival.Receive? && IsRun(INIT, before) && Enabled(Exec(INIT, before), arrival)
    requires IsRun(Apply(Exec(INIT, before), arrival), after)
    ensures var s := Exec(INIT, before);
            var r := Apply(s, arrival);
            Has(Exec(r, after), f, |FromPool(before)|) <==>
            && arrival.peer in s.udpFlows && s.udpFlows[arrival.peer] == f && RoomAtHandOff(r, after, f)
  {
    hide FromPool, RoomAtHandOff;
    InitInv();
    InvariantHolds(INIT, before);
    LogsAreWhatArrived(INIT, before);
    var s := Exec(INIT, before);
    var r := Apply(s, arrival);
    var i := |s.received|;
    assert INIT.received + FromPool(before) == FromPool(before);
    NotThereYet(s, arrival, f);
    if InHand(r, f, i) {
      HandedOrNot(r, after, f, i);
    } else {
      MissingStays(r, after, f, i);
    }
  }

  lemma NotThereYet(s: State, arrival: Step, f: nat)
    requires Inv(s) && arrival.Receive? && Enabled(s, arrival)
    ensures var r := Apply(s, arrival);
            && !Has(r, f, |s.received|) && |s.received| < |r.received|
            && (InHand(r, f, |s.received|) <==> arrival.peer in s.udpFlows && s.udpFlows[arrival.peer] == f)
            && (InHand(r, f, |s.received|) ==> f in r.flows)
  {
    if f in s.flows {
      ItemsAfter(s, arrival, f);
      assert InOrder(s.received, s.flows[f].peer, s.flows[f].inbound, |s.received|);
    } else if f in Apply(s, arrival).flows {
      ReceivedItems(s, arrival, f);
    }
    hide Items;
  }

  // ---- loss on the way to the peer ----

  /** The datagram at place `i` of the ports' log went into this session's channel. */
  ghost predicate HasUp(s: State, n: nat, i: nat) {
    n in s.sessions
    && exists j :: 0 <= j < |Items(s.sessions[n].toFlow)| && Items(s.sessions[n].toFlow)[j].at == i
  }

  /** The port's reader has the datagram at place `i` in its hand. */
  predicate Holds(s: State, port: nat, i: nat) {
    !PortOf(s, port).Free? && PortOf(s, port).item.at == i
  }

  /** When this port next sends, it sends to session `n` and there is room; it does not give up. */
  predicate SendsTo(s: State, steps: seq<Step>, port: nat, n: nat)
    requires IsRun(s, steps)
    decreases |steps|
  {
    steps != [] && steps[0] != GiveUp(port) &&
    if steps[0] == PortSends(port)
    then PortOf(s, port).n == n && |s.sessions[n].toFlow.queue| < CHANNEL_SLOTS
    else SendsTo(Apply(s, steps[0]), steps[1..], port, n)
  }

  ghost predicate UpMissing(s: State, n: nat, i: nat) {
    i < |s.sent| && !HasUp(s, n, i) && forall p :: !Holds(s, p, i)
  }

  lemma UpItemsAfter(s: State, step: Step, n: nat)
    requires Enabled(s, step) && n in s.sessions
    ensures var t := Apply(s, step);
            && n in t.sessions
            && Items(t.sessions[n].toFlow) ==
               (if step.PortSends? && PortOf(s, step.port).n == n
                   && |s.sessions[n].toFlow.queue| < CHANNEL_SLOTS
                then Items(s.sessions[n].toFlow) + [PortOf(s, step.port).item] else Items(s.sessions[n].toFlow))
  {
    hide Items;
    match step
    case PortSends(port) => PushItems(s.sessions[PortOf(s, port).n].toFlow, PortOf(s, port).item);
    case ToPeer(m, written) => TakeItems(s.sessions[m].toFlow, m, written);
    case ReaderGoesOn => ReaderSide(s);
    case _ =>
  }

  lemma NewSessionIsEmpty(s: State, step: Step, n: nat, i: nat)
    requires Enabled(s, step) && n !in s.sessions
    ensures !HasUp(Apply(s, step), n, i)
  {
    match step
    case StartSession(_, _) => assert Items(EMPTY) == [];
    case ReaderGoesOn => ReaderSide(s);
    case _ => assert Apply(s, step).sessions.Keys == s.sessions.Keys;
  }

  lemma NotHeld(s: State, step: Step, port: nat, i: nat)
    requires Enabled(s, step) && i < |s.sent| && !Holds(s, port, i)
    ensures !Holds(Apply(s, step), port, i)
  {
    match step
    case ReaderGoesOn => ReaderSide(s);
    case _ =>
  }

  /** A session does not get a datagram that the port in question is not sending to it. */
  lemma UpNothingNew(s: State, step: Step, n: nat, i: nat)
    requires Enabled(s, step) && !HasUp(s, n, i)
    requires step.PortSends? ==> !(PortOf(s, step.port).n == n && Holds(s, step.port, i)
                                   && |s.sessions[n].toFlow.queue| < CHANNEL_SLOTS)
    ensures !HasUp(Apply(s, step), n, i)
  {
    if n in s.sessions {
      UpItemsAfter(s, step, n);
      hide Items, Apply;
    } else {
      NewSessionIsEmpty(s, step, n, i);
    }
  }

  lemma UpMissingStep(s: State, step: Step, n: nat, i: nat)
    requires Enabled(s, step) && UpMissing(s, n, i)
    ensures UpMissing(Apply(s, step), n, i)
  {
    hide Items, HasUp, Holds, Apply, Enabled;
    LogStep(s, step);
    UpNothingNew(s, step, n, i);
    forall p: nat
      ensures !Holds(Apply(s, step), p, i)
    {
      NotHeld(s, step, p, i);
    }
  }

  lemma {:induction false} UpMissingStays(s: State, steps: seq<Step>, n: nat, i: nat)
    requires IsRun(s, steps) && UpMissing(s, n, i)
    ensures !HasUp(Exec(s, steps), n, i)
    decreases |steps|
  {
    hide Apply, Enabled, HasUp, Holds;
    if steps != [] {
      UpMissingStep(s, steps[0], n, i);
      UpMissingStays(Apply(s, steps[0]), steps[1..], n, i);
    }
  }

  lemma {:induction false} HasUpStays(s: State, steps: seq<Step>, n: nat, i: nat)
    requires IsRun(s, steps) && HasUp(s, n, i)
    ensures HasUp(Exec(s, steps), n, i)
    decreases |steps|
  {
    hide Apply, Enabled, Items;
    if steps != [] {
      var t := Apply(s, steps[0]);
      UpItemsAfter(s, steps[0], n);
      var j :| 0 <= j < |Items(s.sessions[n].toFlow)| && Items(s.sessions[n].toFlow)[j].at == i;
      assert Items(t.sessions[n].toFlow)[j].at == i;
      HasUpStays(t, steps[1..], n, i);
    }
  }

  /** Only this port has the datagram in hand, and no session has it. */
  ghost predicate OnlyIn(s: State, port: nat, n: nat, i: nat) {
    i < |s.sent| && Holds(s, port, i) && !HasUp(s, n, i) && forall p :: p != port ==> !Holds(s, p, i)
  }

  lemma StillHeld(s: State, step: Step, port: nat, i: nat)
    requires Enabled(s, step) && Holds(s, port, i) && step != PortSends(port) && step != GiveUp(port)
    ensures Holds(Apply(s, step), port, i)
  {
    match step
    case ReaderGoesOn => ReaderSide(s);
    case _ =>
  }

  lemma OnlyInStep(s: State, step: Step, port: nat, n: nat, i: nat)
    requires Enabled(s, step) && OnlyIn(s, port, n, i) && step != PortSends(port) && step != GiveUp(port)
    ensures OnlyIn(Apply(s, step), port, n, i)
  {
    hide HasUp, Holds, Apply, Enabled;
    LogStep(s, step);
    StillHeld(s, step, port, i);
    UpNothingNew(s, step, n, i);
    forall p: nat | p != port
      ensures !Holds(Apply(s, step), p, i)
    {
      NotHeld(s, step, p, i);
    }
  }

  /** The port gives up or sends: it has the datagram no more, and the session has it if it was the
      one and had room. */
  lemma OutOfHand(s: State, step: Step, port: nat, n: nat, i: nat)
    requires Enabled(s, step) && OnlyIn(s, port, n, i) && (step == PortSends(port) || step == GiveUp(port))
    ensures var t := Apply(s, step);
            if step == PortSends(port) && PortOf(s, port).n == n && |s.sessions[n].toFlow.queue| < CHANNEL_SLOTS
            then HasUp(t, n, i) else UpMissing(t, n, i)
  {
    hide Items;
    var t := Apply(s, step);
    LogStep(s, step);
    forall p: nat
      ensures !Holds(t, p, i)
    {
      if p != port {
        NotHeld(s, step, p, i);
      }
    }
    if step == PortSends(port) && PortOf(s, port).n == n && |s.sessions[n].toFlow.queue| < CHANNEL_SLOTS {
      UpItemsAfter(s, step, n);
      assert Items(t.sessions[n].toFlow)[|Items(s.sessions[n].toFlow)|].at == i;
    } else {
      UpNothingNew(s, step, n, i);
    }
  }

  lemma {:induction false} SentOrNot(s: State, steps: seq<Step>, port: nat, n: nat, i: nat)
    requires IsRun(s, steps) && OnlyIn(s, port, n, i)
    ensures HasUp(Exec(s, steps), n, i) <==> SendsTo(s, steps, port, n)
    decreases |steps|
  {
    if steps != [] && steps[0] == PortSends(port) {
      assert Enabled(s, PortSends(port));
    }
    hide HasUp, Holds, Apply, Enabled;
    if steps != [] {
      var t := Apply(s, steps[0]);
      if steps[0] == PortSends(port) || steps[0] == GiveUp(port) {
        OutOfHand(s, steps[0], port, n, i);
        if HasUp(t, n, i) {
          HasUpStays(t, steps[1..], n, i);
        } else {
          UpMissingStays(t, steps[1..], n, i);
        }
      } else {
        OnlyInStep(s, steps[0], port, n, i);
        SentOrNot(t, steps[1..], port, n, i);
      }
    }
  }

  /** Loss of a user's datagram, exactly: it ends up in the channel of session `n` if and only if the
      port does not give up on it and next sends to `n` with one of the 64 slots free. */
  lemma UserDeliveredExactly(before: seq<Step>, arrival: Step, after: seq<Step>, n: nat)
    requires arrival.FromUser? && IsRun(INIT, before) && Enabled(Exec(INIT, before), arrival)
    requires IsRun(Apply(Exec(INIT, before), arrival), after)
    ensures var r := Apply(Exec(INIT, before), arrival);
            HasUp(Exec(r, after), n, |FromPorts(before)|) <==> SendsTo(r, after, arrival.port, n)
  {
    hide FromPorts, SendsTo;
    InitInv();
    InvariantHolds(INIT, before);
    LogsAreWhatArrived(INIT, before);
    var s := Exec(INIT, before);
    assert INIT.sent + FromPorts(before) == FromPorts(before);
    OnlyInAtFirst(s, arrival, n);
    SentOrNot(Apply(s, arrival), after, arrival.port, n, |s.sent|);
  }

  lemma OnlyInAtFirst(s: State, arrival: Step, n: nat)
    requires Inv(s) && arrival.FromUser? && Enabled(s, arrival)
    ensures OnlyIn(Apply(s, arrival), arrival.port, n, |s.sent|)
  {
    hide FlowInv, SingleOwner, TakenByOwner;
    var t := Apply(s, arrival);
    if n in s.sessions {
      assert InOrder(s.sent, SourceOf(s, n), s.sessions[n].toFlow, SessionBound(s, n));
      assert t.sessions == s.sessions;
      assert !HasUp(t, n, |s.sent|);
    }
    forall p: nat | p != arrival.port
      ensures !Holds(t, p, |s.sent|)
    {
      assert PortOf(t, p) == PortOf(s, p);
      assert p in s.ports ==> HoldsRight(s, p, s.ports[p]);
    }
  }

  // ---- what takes an entry away ----

  /** What takes the entry of a session's flow away, over every run: the flow reaper, whether the
      session lives or not, and the end of a session with the same peer; nothing else. */
  lemma EntryLostExactly(steps: seq<Step>, n: nat, step: Step)
    requires IsRun(INIT, steps) && Enabled(Exec(INIT, steps), step)
    requires n in Exec(INIT, steps).sessions && Reachable(Exec(INIT, steps), Exec(INIT, steps).sessions[n].flow)
    ensures var s := Exec(INIT, steps);
            var f := s.sessions[n].flow;
            !Reachable(Apply(s, step), f) <==>
            || step == ReapFlow(s.flows[f].peer)
            || (step.EndSession? && s.flows[s.sessions[step.n].flow].peer == s.flows[f].peer)
  {
    InitInv();
    InvariantHolds(INIT, steps);
    EntryLostStep(Exec(INIT, steps), n, step);
  }

  lemma EntryLostStep(s: State, n: nat, step: Step)
    requires Inv(s) && Enabled(s, step) && n in s.sessions && Reachable(s, s.sessions[n].flow)
    ensures var f := s.sessions[n].flow;
            !Reachable(Apply(s, step), f) <==>
            || step == ReapFlow(s.flows[f].peer)
            || (step.EndSession? && s.flows[s.sessions[step.n].flow].peer == s.flows[f].peer)
  {
    hide FlowsInOrder, SessionInv, TakenByOwner, HandingRight;
    var f := s.sessions[n].flow;
    assert s.owner[f] == BySession(n);
    if step.ReaderGoesOn? {
      ReaderKeepsEntry(s, f);
    } else if !step.ReapFlow? && !step.EndSession? {
      EntriesStay(s, step, f);
    }
  }

  /** The reader only ever removes or overwrites the entry of a flow it has in hand itself. */
  lemma ReaderKeepsEntry(s: State, f: nat)
    requires Filed(s) && ReaderFiles(s) && SingleOwner(s) && Enabled(s, ReaderGoesOn)
    requires Reachable(s, f) && s.owner[f].BySession?
    ensures Reachable(ReaderStep(s), f)
  {
    if InReader(s) {
      assert s.owner[s.reader.f] == ByReader;
    }
  }

  lemma EntriesStay(s: State, step: Step, f: nat)
    requires Enabled(s, step) && Reachable(s, f)
    requires !step.ReaderGoesOn? && !step.ReapFlow? && !step.EndSession?
    ensures Reachable(Apply(s, step), f)
  {
    match step
    case Receive(_, _, _, _) =>
    case ToUser(_, _) =>
    case ReaderGoesOn =>
    case ReapFlow(_) =>
    case EndSession(_) =>
    case _ => assert Apply(s, step).flows == s.flows;
  }

  /** A session that ends takes its peer's entry out of the map, whichever flow it stands for; some
      other flow is cut off by it exactly when the entry was not the session's own flow any more. */
  lemma EndCutsOffExactly(steps: seq<Step>, n: nat)
    requires IsRun(INIT, steps) && Enabled(Exec(INIT, steps), EndSession(n))
    ensures var s := Exec(INIT, steps);
            var peer := s.flows[s.sessions[n].flow].peer;
            var t := Apply(s, EndSession(n));
            && peer !in t.udpFlows && (forall k :: k != peer ==> (k in t.udpFlows <==> k in s.udpFlows))
            && ((exists f :: f != s.sessions[n].flow && Reachable(s, f) && !Reachable(t, f))
                <==> peer in s.udpFlows && s.udpFlows[peer] != s.sessions[n].flow)
  {
    hide FlowsInOrder, SessionInv, TakenByOwner, HandingRight, SingleOwner;
    InitInv();
    InvariantHolds(INIT, steps);
    var s := Exec(INIT, steps);
    var peer := s.flows[s.sessions[n].flow].peer;
    if peer in s.udpFlows {
      assert Reachable(s, s.udpFlows[peer]) && !Reachable(Apply(s, EndSession(n)), s.udpFlows[peer]);
    }
  }

  // ---- two runs ----

  lemma {:induction false} OneMore(s: State, steps: seq<Step>, step: Step)
    requires IsRun(s, steps) && Enabled(Exec(s, steps), step)
    ensures IsRun(s, steps + [step]) && Exec(s, steps + [step]) == Apply(Exec(s, steps), step)
    decreases |steps|
  {
    hide Apply, Enabled;
    if steps == [] {
      assert [step][1..] == [];
    } else {
      assert (steps + [step])[1..] == steps[1..] + [step];
      OneMore(Apply(s, steps[0]), steps[1..], step);
    }
  }

  /** A state between datagrams: nobody is busy with one. */
  predicate Quiet(s: State, port: nat) { s.reader.Idle? && s.flowCh == [] && PortOf(s, port).Free? }

  /** What a new peer and a new user of port 80 add to a quiet state once they are connected. */
  predicate Connected(s: State, peer: Peer, f: nat, user: User, n: nat, t: State) {
    && Quiet(t, 80)
    && t.flows == s.flows[f := Flow(peer, EMPTY)] && t.udpFlows == s.udpFlows[peer := f]
    && t.users == s.users[(80, user) := n]
    && n in t.sessions && t.sessions[n].flow == f && t.sessions[n].stage == Serving
    && t.sessions == s.sessions[n := t.sessions[n]]
  }

  /** A peer authenticates, its flow is queued, and a new user of port 80 claims it. */
  lemma Connect(before: seq<Step>, peer: Peer, f: nat, user: User, n: nat) returns (steps: seq<Step>)
    requires IsRun(INIT, before)
    requires var s := Exec(INIT, before);
             && Quiet(s, 80) && f !in s.flows && peer !in s.udpFlows
             && (80, user) !in s.users && n !in s.sessions
    ensures IsRun(INIT, steps) && Connected(Exec(INIT, before), peer, f, user, n, Exec(INIT, steps))
  {
    hide IsRun, Exec;
    var s := Exec(INIT, before);
    OneMore(INIT, before, Receive(peer, 0, true, f));
    steps := before + [Receive(peer, 0, true, f)];
    OneMore(INIT, steps, ReaderGoesOn);
    steps := steps + [ReaderGoesOn];
    OneMore(INIT, steps, ReaderGoesOn);
    steps := steps + [ReaderGoesOn];
    assert Exec(INIT, steps).flowCh == [f];
    steps := ConnectUser(s, steps, f, user, n);
  }

  lemma ConnectUser(s: State, before: seq<Step>, f: nat, user: User, n: nat) returns (steps: seq<Step>)
    requires IsRun(INIT, before)
    requires var r := Exec(INIT, before);
             && r.reader.Idle? && r.flowCh == [f] && PortOf(r, 80).Free?
             && (80, user) !in r.users && n !in r.sessions && r.sessions == s.sessions && r.users == s.users
    ensures IsRun(INIT, steps)
    ensures var r, t := Exec(INIT, before), Exec(INIT, steps);
            && Quiet(t, 80) && t.flows == r.flows && t.udpFlows == r.udpFlows
            && t.users == s.users[(80, user) := n]
            && n in t.sessions && t.sessions[n].flow == f && t.sessions[n].stage == Serving
            && t.sessions == s.sessions[n := t.sessions[n]]
  {
    hide IsRun, Exec;
    var r := Exec(INIT, before);
    OneMore(INIT, before, FromUser(80, user, 0));
    steps := before + [FromUser(80, user, 0)];
    OneMore(INIT, steps, Claim(80));
    steps := steps + [Claim(80)];
    assert Exec(INIT, steps) == ClaimStep(FromUserStep(r, 80, user, 0), 80);
    var t := ServeClaimed(Exec(INIT, steps), steps, f, user, n);
    steps := t;
  }

  lemma ServeClaimed(r: State, before: seq<Step>, f: nat, user: User, n: nat) returns (steps: seq<Step>)
    requires IsRun(INIT, before) && Exec(INIT, before) == r
    requires PortOf(r, 80).Claimed? && PortOf(r, 80).user == user && PortOf(r, 80).f == f
    requires r.reader.Idle? && r.flowCh == [] && n !in r.sessions
    ensures IsRun(INIT, steps)
    ensures var t := Exec(INIT, steps);
            && Quiet(t, 80) && t.flows == r.flows && t.udpFlows == r.udpFlows
            && t.users == r.users[(80, user) := n]
            && n in t.sessions && t.sessions[n].flow == f && t.sessions[n].stage == Serving
            && t.sessions == r.sessions[n := t.sessions[n]]
  {
    hide IsRun, Exec;
    OneMore(INIT, before, StartSession(80, n));
    steps := before + [StartSession(80, n)];
    OneMore(INIT, steps, PortSends(80));
    steps := steps + [PortSends(80)];
  }

  /** The reaper cuts off a session that is being served: from then on every datagram of its peer
      that is not a fresh authentication leaves no trace but in the log. */
  lemma ReapCutsOffLiveSession() returns (steps: seq<Step>)
    ensures IsRun(INIT, steps)
    ensures var s := Exec(INIT, steps);
            && IsServing(s, 0) && s.sessions[0].flow == 10 && 10 in s.flows && s.flows[10].peer == 5
            && s.flows[10].inbound.queue == [] && !Reachable(s, 10)
            && forall data, id :: Enabled(s, Receive(5, data, false, id))
                 ==> Apply(s, Receive(5, data, false, id)) == s.(received := s.received + [Packet(5, data)])
  {
    hide IsRun, Exec;
    Nothing();
    var connected := Connect([], 5, 10, 7, 0);
    OneMore(INIT, connected, ReapFlow(5));
    steps := connected + [ReapFlow(5)];
  }

  lemma Nothing()
    ensures IsRun(INIT, []) && Exec(INIT, []) == INIT
  {
  }

  /** A session's end can cut off another one: the first flow's entry is reaped while its session
      lives on, the peer authenticates again, a second session claims the new flow, and the end of
      the first session takes the second one's entry away. */
  lemma EndCanCutOffAnother() returns (before: seq<Step>)
    ensures IsRun(INIT, before) && Enabled(Exec(INIT, before), EndSession(0))
    ensures var s := Exec(INIT, before);
            var t := Apply(s, EndSession(0));
            && IsServing(t, 1) && Reachable(s, s.sessions[1].flow) && !Reachable(t, t.sessions[1].flow)
  {
    hide IsRun, Exec;
    before := TwoSessionsOnePeer();
    OneMore(INIT, before, Leave(0));
    before := before + [Leave(0)];
  }

  lemma TwoSessionsOnePeer() returns (steps: seq<Step>)
    ensures IsRun(INIT, steps)
    ensures var s := Exec(INIT, steps);
            && IsServing(s, 0) && IsServing(s, 1) && s.sessions[0].flow == 10 && s.sessions[1].flow == 11
            && 10 in s.flows && s.flows[10].peer == 5 && Reachable(s, 11) && s.flows[11].peer == 5
  {
    hide IsRun, Exec;
    Nothing();
    steps := Connect([], 5, 10, 7, 0);
    OneMore(INIT, steps, ReapFlow(5));
    steps := steps + [ReapFlow(5)];
    assert 5 !in Exec(INIT, steps).udpFlows;
    steps := Connect(steps, 5, 11, 8, 1);
  }
}
