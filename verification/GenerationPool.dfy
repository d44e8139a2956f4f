/** What the generation machine keeps about the carriers in its pool, over every run. */
module GenerationPool {
  import opened Counting
  import opened Options
  import opened Generation

  // ---- counting ----

  function CountIn(carriers: seq<Carrier>, epochs: set<Epoch>): (n: nat)
    ensures n <= |carriers|
  {
    if carriers == [] then 0
    else (if carriers[0].epoch in epochs then 1 else 0) + CountIn(carriers[1..], epochs)
  }

  lemma {:induction false} CountAppend(x: seq<Carrier>, y: seq<Carrier>, epochs: set<Epoch>)
    ensures CountIn(x + y, epochs) == CountIn(x, epochs) + CountIn(y, epochs)
  {
    if x == [] {
      assert x + y == y;
    } else {
      assert (x + y)[1..] == x[1..] + y;
      CountAppend(x[1..], y, epochs);
    }
  }

  lemma CountOne(c: Carrier, epochs: set<Epoch>)
    ensures CountIn([c], epochs) == if c.epoch in epochs then 1 else 0
  {
    var one: seq<Carrier> := [c];
    assert one[1..] == [];
  }

  lemma {:induction false} CountMonotone(carriers: seq<Carrier>, fewer: set<Epoch>, more: set<Epoch>)
    requires fewer <= more
    ensures CountIn(carriers, fewer) <= CountIn(carriers, more)
  {
    if carriers != [] {
      CountMonotone(carriers[1..], fewer, more);
    }
  }

  lemma {:induction false} CountKept(sessions: seq<Carrier>, closed: set<nat>, epochs: set<Epoch>)
    ensures CountIn(Keep(sessions, closed), epochs) <= CountIn(sessions, epochs)
  {
    if sessions != [] {
      CountKept(sessions[1..], closed, epochs);
      if sessions[0].conn in closed {
        assert Keep(sessions, closed) == Keep(sessions[1..], closed);
      } else {
        CountAppend([sessions[0]], Keep(sessions[1..], closed), epochs);
        CountOne(sessions[0], epochs);
      }
    }
  }

  function EnteringIn(entering: map<nat, Epoch>, epochs: set<Epoch>): set<nat> {
    set p | p in entering && entering[p] in epochs
  }

  lemma EnteringBounded(entering: map<nat, Epoch>, epochs: set<Epoch>)
    ensures |EnteringIn(entering, epochs)| <= |entering|
  {
    SubsetSize(EnteringIn(entering, epochs), entering.Keys);
  }

  /** Removing a handshake, or adding one for another generation. */
  lemma EnteringChanges(entering: map<nat, Epoch>, p: nat, epochs: set<Epoch>)
    ensures p in entering ==>
              |EnteringIn(entering - {p}, epochs)|
              == |EnteringIn(entering, epochs)| - if entering[p] in epochs then 1 else 0
    ensures p in entering ==> |entering - {p}| == |entering| - 1
    ensures forall e: Epoch :: e !in epochs && p !in entering
              ==> EnteringIn(entering[p := e], epochs) == EnteringIn(entering, epochs)
  {
    if p in entering {
      assert EnteringIn(entering - {p}, epochs) == EnteringIn(entering, epochs) - {p};
      assert (entering - {p}).Keys == entering.Keys - {p};
    }
  }

  // ---- the staleness bound ----

  /** Carriers and unfinished handshakes of generations in `epochs`. */
  function Stale(carriers: seq<Carrier>, entering: map<nat, Epoch>, epochs: set<Epoch>): nat {
    CountIn(carriers, epochs) + |EnteringIn(entering, epochs)|
  }

  ghost predicate ModeLists(cfg: Config, b: Box) {
    && (cfg.mode.Tcp? || b.poolQueue == [])
    && (cfg.mode.TcpMux? || b.sessions == [])
  }

  ghost predicate PoolInv(cfg: Config, s: State) {
    && |s.entering| <= cfg.limit
    && ModeLists(cfg, s.box)
    && Stale(s.box.poolQueue, s.entering, s.settled) <= cfg.limit
    && Stale(s.box.sessions, s.entering, s.torn) <= cfg.limit
  }

  lemma AdmissibleIsAlive(cfg: Config, s: State, e: Epoch)
    requires SlotInv(cfg.kind, s) && Admissible(cfg.kind, s, e)
    ensures e !in s.ended && e !in s.settled && e !in s.torn && e < s.drawn
    ensures exists c :: c in s.controls && s.controls[c].Running? && s.controls[c].epoch == e
  {
    if !cfg.kind.DirectServer? {
      var c := s.box.controlConn.value;
      assert c in s.controls && s.controls[c].Running? && s.controls[c].epoch == e;
    }
  }

  lemma PoolEnter(cfg: Config, s: State, p: nat, e: Epoch)
    requires SlotInv(cfg.kind, s) && PoolInv(cfg, s) && Enabled(cfg, s, Enter(p, e))
    ensures PoolInv(cfg, Apply(cfg, s, Enter(p, e)))
  {
    AdmissibleIsAlive(cfg, s, e);
    EnteringChanges(s.entering, p, s.settled);
    EnteringChanges(s.entering, p, s.torn);
    assert s.entering[p := e].Keys == s.entering.Keys + {p};
  }

  lemma PoolAdmit(cfg: Config, s: State, p: nat)
    requires PoolInv(cfg, s) && Enabled(cfg, s, Admit(p))
    ensures PoolInv(cfg, Apply(cfg, s, Admit(p)))
  {
    var c := Carrier(p, s.entering[p]);
    EnteringChanges(s.entering, p, s.settled);
    EnteringChanges(s.entering, p, s.torn);
    CountAppend(s.box.poolQueue, [c], s.settled);
    CountAppend(s.box.sessions, [c], s.torn);
    CountOne(c, s.settled);
    CountOne(c, s.torn);
  }

  /** A handshake that fails, and a flow that is queued, which no teardown looks at. */
  lemma PoolLeave(cfg: Config, s: State, step: Step, p: nat)
    requires PoolInv(cfg, s) && Enabled(cfg, s, step) && (step == Leave(p) || step == QueueFlow(p))
    ensures PoolInv(cfg, Apply(cfg, s, step))
  {
    EnteringChanges(s.entering, p, s.settled);
    EnteringChanges(s.entering, p, s.torn);
  }

  /** A finished drain leaves nothing queued, so what can still turn up stale is only in flight. */
  lemma PoolTeardown(cfg: Config, s: State, step: Step, c: nat)
    requires PoolInv(cfg, s) && Enabled(cfg, s, step)
    requires step == DrainEnd(c) || step == DropSessions(c)
    ensures PoolInv(cfg, Apply(cfg, s, step))
  {
    var t := Apply(cfg, s, step);
    EnteringBounded(s.entering, t.settled);
    EnteringBounded(s.entering, t.torn);
  }

  lemma PoolStep(cfg: Config, s: State, step: Step)
    requires SlotInv(cfg.kind, s) && PoolInv(cfg, s) && Enabled(cfg, s, step)
    ensures PoolInv(cfg, Apply(cfg, s, step))
  {
    hide SlotInv;
    match step
    case Enter(p, e) => PoolEnter(cfg, s, p, e);
    case Admit(p) => PoolAdmit(cfg, s, p);
    case Leave(p) => PoolLeave(cfg, s, step, p);
    case QueueFlow(p) => PoolLeave(cfg, s, step, p);
    case DrainEnd(c) => PoolTeardown(cfg, s, step, c);
    case DropSessions(c) => PoolTeardown(cfg, s, step, c);
    case Prune(closed) => CountKept(s.box.sessions, closed, s.torn);
    case _ =>
  }

  lemma {:induction false} PoolInvariantHolds(cfg: Config, s: State, steps: seq<Step>)
    requires SlotInv(cfg.kind, s) && PoolInv(cfg, s) && IsRun(cfg, s, steps)
    ensures PoolInv(cfg, Exec(cfg, s, steps))
    decreases |steps|
  {
    if steps != [] {
      SlotStep(cfg, s, steps[0]);
      PoolStep(cfg, s, steps[0]);
      PoolInvariantHolds(cfg, Apply(cfg, s, steps[0]), steps[1..]);
    }
  }

  /** Staleness bound, at the finest grain: with at most `limit` pool handshakes between check and
      admission, the carriers of torn-down generations a user could still be handed, together with
      those still in flight, never exceed `limit` in any reachable state. */
  lemma StaleCarriersBounded(cfg: Config, steps: seq<Step>)
    requires IsRun(cfg, INIT, steps)
    ensures var s := Exec(cfg, INIT, steps);
            Stale(Listed(s.box), s.entering, s.torn) <= cfg.limit
  {
    var s := Exec(cfg, INIT, steps);
    PoolInvariantHolds(cfg, INIT, steps);
    SlotInvariantHolds(cfg, INIT, steps);
    CountAppend(s.box.poolQueue, s.box.sessions, s.torn);
    CountMonotone(s.box.poolQueue, s.torn, s.settled);
    SubsetSize(EnteringIn(s.entering, s.torn), EnteringIn(s.entering, s.settled));
  }

  // ---- the bound is attained ----

  lemma {:induction false} ExecAppend(cfg: Config, s: State, x: seq<Step>, y: seq<Step>)
    requires IsRun(cfg, s, x) && IsRun(cfg, Exec(cfg, s, x), y)
    ensures IsRun(cfg, s, x + y) && Exec(cfg, s, x + y) == Exec(cfg, Exec(cfg, s, x), y)
    decreases |x|
  {
    if x == [] {
      assert x + y == y;
    } else {
      assert (x + y)[0] == x[0] && (x + y)[1..] == x[1..] + y;
      ExecAppend(cfg, Apply(cfg, s, x[0]), x[1..], y);
    }
  }

  lemma ExecOne(cfg: Config, s: State, step: Step)
    requires Enabled(cfg, s, step)
    ensures IsRun(cfg, s, [step]) && Exec(cfg, s, [step]) == Apply(cfg, s, step)
  {
    var one: seq<Step> := [step];
    assert one[1..] == [];
  }

  /** Handshakes 0..k, all past the check for epoch 0. */
  function Handshakes(k: nat): (m: map<nat, Epoch>)
    ensures |m| == k && forall p: nat :: p in m <==> p < k
    ensures forall p :: p in m ==> m[p] == 0
  {
    if k == 0 then map[] else Handshakes(k - 1)[k - 1 := 0]
  }

  lemma HandshakesShrink(k: nat)
    requires k > 0
    ensures Handshakes(k) - {k - 1} == Handshakes(k - 1)
  {
    assert (Handshakes(k) - {k - 1}).Keys == Handshakes(k - 1).Keys;
  }

  lemma OneEnters(cfg: Config, s: State, k: nat)
    requires cfg.kind.ReverseServer? && 0 < k <= cfg.limit && s.box.epoch == Some(0)
    ensures var t := s.(entering := Handshakes(k - 1));
            Enabled(cfg, t, Enter(k - 1, 0))
            && Apply(cfg, t, Enter(k - 1, 0)) == s.(entering := Handshakes(k))
  {
  }

  lemma {:induction false} ManyEnter(cfg: Config, s: State, k: nat) returns (steps: seq<Step>)
    requires cfg.kind.ReverseServer? && k <= cfg.limit
    requires s.box.epoch == Some(0) && s.entering == map[]
    ensures IsRun(cfg, s, steps) && Exec(cfg, s, steps) == s.(entering := Handshakes(k))
    decreases k
  {
    hide Enabled, Apply;
    if k == 0 {
      steps := [];
    } else {
      var before := ManyEnter(cfg, s, k - 1);
      OneEnters(cfg, s, k);
      ExecOne(cfg, s.(entering := Handshakes(k - 1)), Enter(k - 1, 0));
      ExecAppend(cfg, s, before, [Enter(k - 1, 0)]);
      steps := before + [Enter(k - 1, 0)];
    }
  }

  lemma {:induction false} ManyAdmit(cfg: Config, s: State, k: nat) returns (steps: seq<Step>)
    requires cfg.kind.ReverseServer? && cfg.mode.TcpMux? && s.entering == Handshakes(k)
    requires 0 in s.torn && s.box.poolQueue == []
    ensures IsRun(cfg, s, steps)
    ensures var t := Exec(cfg, s, steps);
            && t.torn == s.torn && t.box.poolQueue == []
            && CountIn(t.box.sessions, t.torn) == CountIn(s.box.sessions, s.torn) + k
    decreases k
  {
    if k == 0 {
      steps := [];
    } else {
      var p := k - 1;
      HandshakesShrink(k);
      CountAppend(s.box.sessions, [Carrier(p, 0)], s.torn);
      CountOne(Carrier(p, 0), s.torn);
      var rest := ManyAdmit(cfg, Apply(cfg, s, Admit(p)), p);
      Prefixed(cfg, s, Admit(p), rest);
      steps := [Admit(p)] + rest;
    }
  }

  /** The bound is exact: for every `limit` there is a run after which that many carriers of a
      torn-down generation are listed for users. In particular, at this grain a carrier of a dead
      generation can be handed out as soon as one handshake may be in flight. */
  lemma StaleBoundAttained(limit: nat) returns (cfg: Config, steps: seq<Step>)
    ensures cfg == Config(ReverseServer, TcpMux, limit) && IsRun(cfg, INIT, steps)
    ensures var s := Exec(cfg, INIT, steps); CountIn(Listed(s.box), s.torn) == limit
  {
    cfg := Config(ReverseServer, TcpMux, limit);
    var s1 := Apply(cfg, INIT, Test(0));
    var s2 := Apply(cfg, s1, Publish(0));
    var enters := ManyEnter(cfg, s2, limit);
    var s3 := Exec(cfg, s2, enters);
    var tail := TeardownThenAdmit(cfg, s3, limit);
    ExecAppend(cfg, s2, enters, tail);
    Prefixed(cfg, s1, Publish(0), enters + tail);
    Prefixed(cfg, INIT, Test(0), [Publish(0)] + (enters + tail));
    steps := [Test(0)] + ([Publish(0)] + (enters + tail));
  }

  /** The generation ends and is torn down while `k` handshakes are in flight; then they arrive. */
  lemma TeardownThenAdmit(cfg: Config, s: State, k: nat) returns (steps: seq<Step>)
    requires cfg.kind.ReverseServer? && cfg.mode.TcpMux? && s.entering == Handshakes(k)
    requires 0 in s.controls && s.controls[0].Running? && s.controls[0].epoch == 0
    requires s.box.poolQueue == [] && s.torn == {}
    ensures IsRun(cfg, s, steps)
    ensures var t := Exec(cfg, s, steps); CountIn(Listed(t.box), t.torn) == k
  {
    var s4 := Apply(cfg, s, Clear(0));
    var s5 := Apply(cfg, s4, DrainEnd(0));
    var s6 := Apply(cfg, s5, DropSessions(0));
    var admits := ManyAdmit(cfg, s6, k);
    Prefixed(cfg, s5, DropSessions(0), admits);
    Prefixed(cfg, s4, DrainEnd(0), [DropSessions(0)] + admits);
    Prefixed(cfg, s, Clear(0), [DrainEnd(0)] + ([DropSessions(0)] + admits));
    steps := [Clear(0)] + ([DrainEnd(0)] + ([DropSessions(0)] + admits));
    var t := Exec(cfg, s6, admits);
    assert Listed(t.box) == t.box.sessions;
  }

  lemma Prefixed(cfg: Config, s: State, step: Step, rest: seq<Step>)
    requires Enabled(cfg, s, step) && IsRun(cfg, Apply(cfg, s, step), rest)
    ensures IsRun(cfg, s, [step] + rest)
    ensures Exec(cfg, s, [step] + rest) == Exec(cfg, Apply(cfg, s, step), rest)
  {
    ExecOne(cfg, s, step);
    ExecAppend(cfg, s, [step], rest);
  }
}
