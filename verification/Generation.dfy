/** The generation machine: how a control connection publishes an epoch, how carriers join and
    leave its pool, and how everything is torn down. One step per critical section, channel
    operation or network check. The same machine runs in three places: the listening server
    (server.go), the dialing server of direction "direct" and its listening client (direct.go). */
module Generation {
  import opened Counting
  import opened Options

  type Epoch = nat
  type Chan = nat

  datatype Kind = ReverseServer | DirectServer | DirectClient
  datatype Mode = Tcp | TcpMux | Udp

  /** `limit` is the number of pool handshakes that may be between the check of their epoch and
      their admission at the same time. */
  datatype Config = Config(kind: Kind, mode: Mode, limit: nat)

  const QUEUE_CAP := 4096

  /** A pool connection, or the mux session on it, with the epoch it presented. */
  datatype Carrier = Carrier(conn: nat, epoch: Epoch)

  /** The fields of one box that its locks and channels protect. */
  datatype Box = Box(controlConn: Option<nat>, epoch: Option<Epoch>, ctrlOut: Option<Chan>,
                     poolQueue: seq<Carrier>, sessions: seq<Carrier>)

  // ---- critical sections, as functions of the box ----

  function Published(kind: Kind, b: Box, conn: nat, epoch: Epoch, out: Chan): Box {
    b.(controlConn := Some(conn), epoch := Some(epoch),
       ctrlOut := if kind.ReverseServer? then Some(out) else b.ctrlOut)
  }

  /** The end of a control loop: only the connection that still holds the slot empties it. */
  function Released(b: Box, conn: nat): Box {
    if b.controlConn == Some(conn) then b.(controlConn := None, epoch := None, ctrlOut := None) else b
  }

  /** The output channel closed by the end of `conn`'s control loop. */
  function ClosedBy(kind: Kind, b: Box, conn: nat, own: Chan): Option<Chan> {
    match kind
    case ReverseServer => if b.controlConn == Some(conn) then b.ctrlOut else None
    case DirectServer => None
    case DirectClient => Some(own)
  }

  function Joined(kind: Kind, mode: Mode, b: Box, c: Carrier): Box {
    if kind.DirectClient? then b // the accepting client serves the carrier itself
    else match mode
    case Tcp => if |b.poolQueue| < QUEUE_CAP then b.(poolQueue := b.poolQueue + [c]) else b
    case TcpMux => b.(sessions := b.sessions + [c])
    case Udp => b
  }

  function Keep(sessions: seq<Carrier>, closed: set<nat>): seq<Carrier> {
    if sessions == [] then []
    else (if sessions[0].conn in closed then [] else [sessions[0]]) + Keep(sessions[1..], closed)
  }

  /** What a user connection can be handed in modes tcp and tcpmux. */
  function Listed(b: Box): seq<Carrier> { b.poolQueue + b.sessions }

  // ---- the object ----

  class Server {
    const kind: Kind
    const mode: Mode
    var controlConn: Option<nat>
    var epoch: Option<Epoch>
    var ctrlOut: Option<Chan>
    var poolQueue: seq<Carrier>
    var sessions: seq<Carrier>
    /** Carriers this server has closed, in order. */
    var closed: seq<Carrier>

    constructor (kind: Kind, mode: Mode)
      ensures this.kind == kind && this.mode == mode
      ensures State() == Box(None, None, None, [], []) && closed == []
    {
      this.kind, this.mode := kind, mode;
      controlConn, epoch, ctrlOut := None, None, None;
      poolQueue, sessions, closed := [], [], [];
    }

    function State(): Box
      reads this
    {
      Box(controlConn, epoch, ctrlOut, poolQueue, sessions)
    }

    method Publish(conn: nat, e: Epoch, out: Chan)
      modifies this`controlConn, this`epoch, this`ctrlOut
      ensures State() == Published(kind, old(State()), conn, e, out)
    {
      controlConn := Some(conn);
      epoch := Some(e);
      if kind.ReverseServer? {
        ctrlOut := Some(out);
      }
    }

    /** What runControl, dialControlOnce and runListenerControl do once their loop is over. */
    method Release(conn: nat, own: Chan) returns (closes: Option<Chan>)
      modifies this`controlConn, this`epoch, this`ctrlOut
      ensures State() == Released(old(State()), conn)
      ensures closes == ClosedBy(kind, old(State()), conn, own)
    {
      closes := None;
      if controlConn == Some(conn) {
        controlConn, epoch := None, None;
        if kind.ReverseServer? {
          closes := ctrlOut;
        }
        ctrlOut := None;
      }
      if kind.DirectClient? {
        closes := Some(own);
      }
    }

    /** The receive in obtainPoolConn: the longest-queued connection, which is then this user's alone,
        or none. */
    method TakePoolConn() returns (c: Option<Carrier>)
      modifies this`poolQueue
      ensures c == None <==> old(poolQueue) == []
      ensures c.Some? ==> old(poolQueue) == [c.value] + poolQueue
      ensures c == None ==> poolQueue == old(poolQueue)
    {
      if |poolQueue| == 0 {
        return None;
      }
      c := Some(poolQueue[0]);
      poolQueue := poolQueue[1..];
    }

    /** Empties the pool queue and the session list and closes everything in them. The epoch it is
        given plays no part: carriers of every generation go. */
    method TeardownEpoch(ended: Epoch)
      modifies this`poolQueue, this`sessions, this`closed
      ensures State() == old(State()).(poolQueue := [], sessions := [])
      ensures closed == old(closed) + old(Listed(State()))
    {
      while |poolQueue| > 0
        invariant closed + poolQueue == old(closed) + old(poolQueue)
        invariant sessions == old(sessions)
      {
        closed := closed + [poolQueue[0]];
        poolQueue := poolQueue[1..];
      }
      var i := 0;
      while i < |sessions|
        invariant 0 <= i <= |sessions|
        invariant closed == old(closed) + old(poolQueue) + sessions[..i]
        invariant poolQueue == [] && sessions == old(sessions)
      {
        closed := closed + [sessions[i]];
        i := i + 1;
      }
      sessions := [];
    }

    method AdmitPoolConn(c: Carrier)
      modifies this`poolQueue, this`sessions, this`closed
      ensures State() == Joined(kind, mode, old(State()), c)
      ensures closed == old(closed) + if kind.DirectClient? || Listed(State()) != old(Listed(State()))
                                      then [] else [c]
    {
      if kind.DirectClient? {
        return;
      }
      match mode
      case Tcp =>
        if |poolQueue| < QUEUE_CAP {
          poolQueue := poolQueue + [c];
          assert |Listed(State())| == |old(Listed(State()))| + 1;
        } else {
          closed := closed + [c];
        }
      case TcpMux =>
        sessions := sessions + [c];
        assert |Listed(State())| == |old(Listed(State()))| + 1;
      case Udp =>
        closed := closed + [c];
    }
  }

  // ---- the transition system ----

  /** Where a control connection's goroutine stands: it found the slot free and drew an epoch; it
      published and reads; its loop is over and the slot is released; the queue is drained; done. */
  datatype Control = Tested(epoch: Epoch) | Running(epoch: Epoch, out: Chan)
                   | Cleared(epoch: Epoch) | Emptied(epoch: Epoch) | Finished(epoch: Epoch)

  /** `entering`: pool handshakes past the epoch check. `senders`: requestMore calls that hold a
      channel. `closes`: every close of an output channel. `drawn`, `made`: epochs and channels are
      fresh. `ended`, `settled`, `torn`: generations whose slot was released, whose queue drain
      ended, whose teardown returned. `flowCh`: in
      mode udp, the authenticated flows of the pool socket, which users are handed there. */
  datatype State = State(box: Box, controls: map<nat, Control>, entering: map<nat, Epoch>,
                         senders: map<nat, Chan>, closes: seq<Chan>, drawn: Epoch, made: Chan,
                         ended: set<Epoch>, settled: set<Epoch>, torn: set<Epoch>,
                         flowCh: seq<Carrier>)

  const INIT := State(Box(None, None, None, [], []), map[], map[], map[], [], 0, 0,
                      {}, {}, {}, [])

  datatype Step =
    | Test(c: nat) | GiveUp(c: nat) | Publish(c: nat) | Pong(c: nat)
    | Clear(c: nat) | DrainOne(c: nat) | DrainEnd(c: nat) | DropSessions(c: nat)
    | Enter(p: nat, e: Epoch) | Leave(p: nat) | Admit(p: nat)
    | TakeConn | Prune(closed: set<nat>)
    | QueueFlow(p: nat) | ClaimFlow
    | ReadOut(r: nat) | SendNeed(r: nat)

  /** Who may start a pool handshake for epoch `e`: a listener checks it against the published
      epoch, a dialer dials only for a generation it is still running. */
  predicate Admissible(kind: Kind, s: State, e: Epoch) {
    if kind.DirectServer? then exists c :: c in s.controls && s.controls[c].Running? && s.controls[c].epoch == e
    else s.box.epoch == Some(e)
  }

  predicate Enabled(cfg: Config, s: State, step: Step) {
    match step
    case Test(c) => c !in s.controls && s.box.controlConn == None
    case GiveUp(c) => c in s.controls && s.controls[c].Tested?
    case Publish(c) => c in s.controls && s.controls[c].Tested?
    case Pong(c) => c in s.controls && s.controls[c].Running?
    case Clear(c) => c in s.controls && s.controls[c].Running?
    case DrainOne(c) => c in s.controls && s.controls[c].Cleared? && s.box.poolQueue != []
    case DrainEnd(c) => c in s.controls && s.controls[c].Cleared? && s.box.poolQueue == []
    case DropSessions(c) => c in s.controls && s.controls[c].Emptied?
    case Enter(p, e) => p !in s.entering && |s.entering| < cfg.limit && Admissible(cfg.kind, s, e)
    case Leave(p) => p in s.entering
    case Admit(p) => p in s.entering
    case TakeConn => s.box.poolQueue != []
    case Prune(_) => true
    case QueueFlow(p) => p in s.entering && cfg.mode.Udp? && cfg.kind.ReverseServer?
    case ClaimFlow => s.flowCh != []
    case ReadOut(r) => r !in s.senders && s.box.ctrlOut.Some?
    case SendNeed(r) => r in s.senders
  }

  function CloseLog(closes: seq<Chan>, ch: Option<Chan>): seq<Chan> {
    if ch.Some? then closes + [ch.value] else closes
  }

  function Apply(cfg: Config, s: State, step: Step): State
    requires Enabled(cfg, s, step)
  {
    match step
    case Test(c) => s.(controls := s.controls[c := Tested(s.drawn)], drawn := s.drawn + 1)
    case GiveUp(c) => s.(controls := s.controls - {c})
    case Publish(c) =>
      s.(box := Published(cfg.kind, s.box, c, s.controls[c].epoch, s.made),
         controls := s.controls[c := Running(s.controls[c].epoch, s.made)], made := s.made + 1)
    case Pong(c) => s
    case Clear(c) =>
      s.(box := Released(s.box, c),
         closes := CloseLog(s.closes, ClosedBy(cfg.kind, s.box, c, s.controls[c].out)),
         controls := s.controls[c := Cleared(s.controls[c].epoch)],
         ended := s.ended + {s.controls[c].epoch})
    case DrainOne(c) => s.(box := s.box.(poolQueue := s.box.poolQueue[1..]))
    case DrainEnd(c) =>
      s.(controls := s.controls[c := Emptied(s.controls[c].epoch)],
         settled := s.settled + {s.controls[c].epoch})
    case DropSessions(c) =>
      s.(box := s.box.(sessions := []), controls := s.controls[c := Finished(s.controls[c].epoch)],
         torn := s.torn + {s.controls[c].epoch})
    case Enter(p, e) => s.(entering := s.entering[p := e])
    case Leave(p) => s.(entering := s.entering - {p})
    case Admit(p) =>
      s.(box := Joined(cfg.kind, cfg.mode, s.box, Carrier(p, s.entering[p])),
         entering := s.entering - {p})
    case TakeConn => s.(box := s.box.(poolQueue := s.box.poolQueue[1..]))
    case Prune(closed) => s.(box := s.box.(sessions := Keep(s.box.sessions, closed)))
    case QueueFlow(p) =>
      s.(flowCh := if |s.flowCh| < QUEUE_CAP then s.flowCh + [Carrier(p, s.entering[p])] else s.flowCh,
         entering := s.entering - {p})
    case ClaimFlow => s.(flowCh := s.flowCh[1..])
    case ReadOut(r) => s.(senders := s.senders[r := s.box.ctrlOut.value])
    case SendNeed(r) =>
      s.(senders := s.senders - {r})
  }

  predicate IsRun(cfg: Config, s: State, steps: seq<Step>)
    decreases |steps|
  {
    steps == [] ||
    (Enabled(cfg, s, steps[0]) && IsRun(cfg, Apply(cfg, s, steps[0]), steps[1..]))
  }

  function Exec(cfg: Config, s: State, steps: seq<Step>): State
    requires IsRun(cfg, s, steps)
    decreases |steps|
  {
    if steps == [] then s else Exec(cfg, Apply(cfg, s, steps[0]), steps[1..])
  }

  // ---- the slot ----

  /** Epochs and channels are fresh, so no two control connections share one. */
  ghost predicate Fresh(s: State) {
    && (forall c :: c in s.controls ==> s.controls[c].epoch < s.drawn)
    && (forall c, d :: c in s.controls && d in s.controls && c != d
          ==> s.controls[c].epoch != s.controls[d].epoch)
    && (forall c :: c in s.controls && s.controls[c].Running? ==> s.controls[c].out < s.made)
    && (forall c, d :: c in s.controls && d in s.controls && c != d
          && s.controls[c].Running? && s.controls[d].Running?
          ==> s.controls[c].out != s.controls[d].out)
    && (forall i :: 0 <= i < |s.closes| ==> s.closes[i] < s.made)
  }

  /** The slot fields all come from one publication, made by a connection that is still running. */
  ghost predicate Coherent(kind: Kind, s: State) {
    match s.box.controlConn
    case None => s.box.epoch == None && s.box.ctrlOut == None
    case Some(c) =>
      && c in s.controls && s.controls[c].Running?
      && s.box.epoch == Some(s.controls[c].epoch)
      && s.box.ctrlOut == if kind.ReverseServer? then Some(s.controls[c].out) else None
  }

  ghost predicate ChannelsSafe(s: State) {
    && Distinct(s.closes)
    && (forall c :: c in s.controls && s.controls[c].Running? ==> s.controls[c].out !in s.closes)
  }

  ghost predicate EndedExactly(s: State) {
    && (forall c :: c in s.controls ==>
          (s.controls[c].Tested? || s.controls[c].Running? <==> s.controls[c].epoch !in s.ended))
    && (forall e :: e in s.ended ==> e < s.drawn)
    && s.torn <= s.settled <= s.ended
    && (forall c :: c in s.controls && s.controls[c].Emptied? ==> s.controls[c].epoch in s.settled)
  }

  ghost predicate SlotInv(kind: Kind, s: State) {
    Fresh(s) && Coherent(kind, s) && ChannelsSafe(s) && EndedExactly(s)
  }

  /** The part of the state these invariants speak of. */
  predicate SameSlot(s: State, t: State) {
    && t.box.controlConn == s.box.controlConn && t.box.epoch == s.box.epoch
    && t.box.ctrlOut == s.box.ctrlOut && t.controls == s.controls && t.closes == s.closes
    && t.drawn == s.drawn && t.made == s.made && t.ended == s.ended
    && t.settled == s.settled && t.torn == s.torn
  }

  lemma SlotFrame(kind: Kind, s: State, t: State)
    requires SlotInv(kind, s) && SameSlot(s, t)
    ensures SlotInv(kind, t)
  {
  }

  /** One control connection moves to another stage: it keeps its epoch, and nobody starts running. */
  ghost predicate Relabels(s: State, t: State) {
    && t.controls.Keys == s.controls.Keys && t.drawn == s.drawn && t.made == s.made
    && (forall c :: c in s.controls ==> t.controls[c].epoch == s.controls[c].epoch)
    && (forall c :: c in s.controls && t.controls[c].Running? ==> t.controls[c] == s.controls[c])
  }

  lemma FreshRelabelled(s: State, t: State)
    requires Fresh(s) && Relabels(s, t)
    requires forall i :: 0 <= i < |t.closes| ==> t.closes[i] < t.made
    ensures Fresh(t)
  {
  }

  lemma SlotTest(cfg: Config, s: State, c: nat)
    requires SlotInv(cfg.kind, s) && Enabled(cfg, s, Test(c))
    ensures SlotInv(cfg.kind, Apply(cfg, s, Test(c)))
  {
    assert Fresh(Apply(cfg, s, Test(c)));
  }

  lemma SlotGiveUp(cfg: Config, s: State, c: nat)
    requires SlotInv(cfg.kind, s) && Enabled(cfg, s, GiveUp(c))
    ensures SlotInv(cfg.kind, Apply(cfg, s, GiveUp(c)))
  {
    assert Fresh(Apply(cfg, s, GiveUp(c)));
  }

  lemma SlotPublish(cfg: Config, s: State, c: nat)
    requires SlotInv(cfg.kind, s) && Enabled(cfg, s, Publish(c))
    ensures SlotInv(cfg.kind, Apply(cfg, s, Publish(c)))
  {
    var t := Apply(cfg, s, Publish(c));
    assert Fresh(t);
    assert ChannelsSafe(t);
  }

  lemma ClearCloses(cfg: Config, s: State, c: nat)
    requires SlotInv(cfg.kind, s) && Enabled(cfg, s, Clear(c))
    ensures ChannelsSafe(Apply(cfg, s, Clear(c)))
    ensures forall ch :: ch in Apply(cfg, s, Clear(c)).closes ==> ch in s.closes || ch == s.controls[c].out
  {
  }

  lemma ClearReleases(cfg: Config, s: State, c: nat)
    requires SlotInv(cfg.kind, s) && Enabled(cfg, s, Clear(c))
    ensures Coherent(cfg.kind, Apply(cfg, s, Clear(c)))
    ensures EndedExactly(Apply(cfg, s, Clear(c)))
  {
  }

  lemma SlotClear(cfg: Config, s: State, c: nat)
    requires SlotInv(cfg.kind, s) && Enabled(cfg, s, Clear(c))
    ensures SlotInv(cfg.kind, Apply(cfg, s, Clear(c)))
  {
    ClearCloses(cfg, s, c);
    ClearReleases(cfg, s, c);
    FreshRelabelled(s, Apply(cfg, s, Clear(c)));
  }

  /** A teardown step moves one ended connection along and leaves everything else alone. */
  ghost predicate TeardownMove(s: State, t: State, c: nat) {
    && c in s.controls && c in t.controls && t.controls == s.controls[c := t.controls[c]]
    && t.controls[c].epoch == s.controls[c].epoch && s.controls[c].epoch in s.ended
    && !s.controls[c].Running? && !t.controls[c].Running? && !t.controls[c].Tested?
    && t.drawn == s.drawn && t.made == s.made && t.closes == s.closes
    && t.box.controlConn == s.box.controlConn && t.box.epoch == s.box.epoch && t.box.ctrlOut == s.box.ctrlOut
    && t.ended == s.ended && t.torn <= t.settled <= s.settled + {t.controls[c].epoch}
    && s.settled <= t.settled && (t.controls[c].Emptied? ==> t.controls[c].epoch in t.settled)
  }

  lemma TeardownKeepsEnded(kind: Kind, s: State, t: State, c: nat)
    requires SlotInv(kind, s) && TeardownMove(s, t, c)
    ensures EndedExactly(t)
  {
  }

  lemma SlotTeardown(kind: Kind, s: State, t: State, c: nat)
    requires SlotInv(kind, s) && TeardownMove(s, t, c)
    ensures SlotInv(kind, t)
  {
    assert Relabels(s, t);
    FreshRelabelled(s, t);
    TeardownKeepsEnded(kind, s, t, c);
  }

  lemma TeardownSteps(cfg: Config, s: State, step: Step, c: nat)
    requires SlotInv(cfg.kind, s) && Enabled(cfg, s, step)
    requires step == DrainEnd(c) || step == DropSessions(c)
    ensures TeardownMove(s, Apply(cfg, s, step), c)
  {
  }

  lemma SlotStep(cfg: Config, s: State, step: Step)
    requires SlotInv(cfg.kind, s) && Enabled(cfg, s, step)
    ensures SlotInv(cfg.kind, Apply(cfg, s, step))
  {
    hide SlotInv;
    match step
    case Test(c) => SlotTest(cfg, s, c);
    case GiveUp(c) => SlotGiveUp(cfg, s, c);
    case Publish(c) => SlotPublish(cfg, s, c);
    case Clear(c) => SlotClear(cfg, s, c);
    case DrainEnd(c) =>
      TeardownSteps(cfg, s, step, c);
      SlotTeardown(cfg.kind, s, Apply(cfg, s, step), c);
    case DropSessions(c) =>
      TeardownSteps(cfg, s, step, c);
      SlotTeardown(cfg.kind, s, Apply(cfg, s, step), c);
    case Pong(c) => SlotPong(cfg, s, c);
    case _ => SlotFrame(cfg.kind, s, Apply(cfg, s, step));
  }

  lemma SlotPong(cfg: Config, s: State, c: nat)
    requires SlotInv(cfg.kind, s) && Enabled(cfg, s, Pong(c))
    ensures SlotInv(cfg.kind, Apply(cfg, s, Pong(c)))
  {
    SlotFrame(cfg.kind, s, Apply(cfg, s, Pong(c)));
  }

  // ---- results about the slot, over every run ----

  lemma {:induction false} SlotInvariantHolds(cfg: Config, s: State, steps: seq<Step>)
    requires SlotInv(cfg.kind, s) && IsRun(cfg, s, steps)
    ensures SlotInv(cfg.kind, Exec(cfg, s, steps))
    decreases |steps|
  {
    if steps != [] {
      SlotStep(cfg, s, steps[0]);
      SlotInvariantHolds(cfg, Apply(cfg, s, steps[0]), steps[1..]);
    }
  }

  /** In every reachable state, however many control handshakes overlap: `controlConn`, `epoch` and
      `ctrlOut` come from one publication by a connection that is still running, and its generation
      is not over; no channel is closed twice; and no loop that could send a pong now would send it on
      a closed channel. */
  lemma OwnerGuardedSlot(cfg: Config, steps: seq<Step>)
    requires IsRun(cfg, INIT, steps)
    ensures var s := Exec(cfg, INIT, steps);
            && Distinct(s.closes)
            && (forall c :: Enabled(cfg, s, Pong(c)) ==> s.controls[c].out !in s.closes)
            && (s.box.controlConn == None ==> s.box.epoch == None && s.box.ctrlOut == None)
            && (s.box.controlConn.Some? ==>
                  var c := s.box.controlConn.value;
                  && c in s.controls && s.controls[c].Running?
                  && s.box.epoch == Some(s.controls[c].epoch) && s.controls[c].epoch !in s.ended
                  && (cfg.kind.ReverseServer? ==> s.box.ctrlOut == Some(s.controls[c].out)))
  {
    SlotInvariantHolds(cfg, INIT, steps);
  }

  /** A control loop that was superseded changes none of its successor's slot fields when it releases
      the slot; the one that still owns it empties it. A closed channel is always the ending loop's
      own. (What the teardown after the release does is GenerationTeardown's subject.) */
  lemma OnlyTheOwnerClears(cfg: Config, steps: seq<Step>, c: nat)
    requires IsRun(cfg, INIT, steps) && Enabled(cfg, Exec(cfg, INIT, steps), Clear(c))
    ensures var s := Exec(cfg, INIT, steps);
            var t := Apply(cfg, s, Clear(c));
            && (if s.box.controlConn == Some(c)
                then t.box.controlConn == None && t.box.epoch == None && t.box.ctrlOut == None
                else t.box == s.box)
            && (t.closes == s.closes || t.closes == s.closes + [s.controls[c].out])
            && (t.closes != s.closes <==>
                  || (cfg.kind.ReverseServer? && s.box.controlConn == Some(c)) || cfg.kind.DirectClient?)
  {
    SlotInvariantHolds(cfg, INIT, steps);
    assert |CloseLog(Exec(cfg, INIT, steps).closes, Some(0))| > |Exec(cfg, INIT, steps).closes|;
  }
}
