/** Generation safety at the coarser grain where the epoch check and the admission of a pool
    connection are one step, and so are the release of the slot and the teardown; and the exact
    condition under which requestMore meets a closed channel. */
module GenerationSafety {
  import opened Options
  import opened Generation
  import opened GenerationPool

  // ---- coarse steps, each a sequence of fine ones ----

  datatype Macro = Begin(c: nat) | Abort(c: nat) | Open(c: nat) | Over(c: nat)
                 | Join(p: nat, e: Epoch) | Take | Reap(closed: set<nat>)
                 | Queue(p: nat, e: Epoch) | Claim

  function Drains(c: nat, n: nat): (steps: seq<Step>)
    ensures |steps| == n
  {
    if n == 0 then [] else [DrainOne(c)] + Drains(c, n - 1)
  }

  function Expand(s: State, m: Macro): seq<Step> {
    match m
    case Begin(c) => [Test(c)]
    case Abort(c) => [GiveUp(c)]
    case Open(c) => [Publish(c)]
    case Over(c) => [Clear(c)] + (Drains(c, |s.box.poolQueue|) + [DrainEnd(c), DropSessions(c)])
    case Join(p, e) => [Enter(p, e), Admit(p)]
    case Take => [TakeConn]
    case Reap(closed) => [Prune(closed)]
    case Queue(p, e) => [Enter(p, e), QueueFlow(p)]
    case Claim => [ClaimFlow]
  }

  predicate CanDo(cfg: Config, s: State, m: Macro) { IsRun(cfg, s, Expand(s, m)) }

  function Do(cfg: Config, s: State, m: Macro): State
    requires CanDo(cfg, s, m)
  {
    Exec(cfg, s, Expand(s, m))
  }

  predicate IsCoarseRun(cfg: Config, s: State, ms: seq<Macro>)
    decreases |ms|
  {
    ms == [] || (CanDo(cfg, s, ms[0]) && IsCoarseRun(cfg, Do(cfg, s, ms[0]), ms[1..]))
  }

  function CoarseExec(cfg: Config, s: State, ms: seq<Macro>): State
    requires IsCoarseRun(cfg, s, ms)
    decreases |ms|
  {
    if ms == [] then s else CoarseExec(cfg, Do(cfg, s, ms[0]), ms[1..])
  }

  // ---- what they keep ----

  /** Some control loop of this generation is still running. */
  ghost predicate Live(s: State, e: Epoch) {
    exists c :: c in s.controls && s.controls[c].Running? && s.controls[c].epoch == e
  }

  ghost predicate AllLive(s: State) {
    forall x :: x in Listed(s.box) ==> Live(s, x.epoch)
  }

  /** Every listed carrier presented exactly the published epoch; in particular there is none while
      no epoch is published. */
  predicate Matches(s: State) {
    forall x :: x in Listed(s.box) ==> s.box.epoch == Some(x.epoch)
  }

  ghost predicate CoarseInv(kind: Kind, s: State) {
    SlotInv(kind, s) && s.entering == map[] && AllLive(s)
  }

  lemma {:induction false} DrainsRun(cfg: Config, s: State, c: nat, n: nat)
    requires c in s.controls && s.controls[c].Cleared? && n <= |s.box.poolQueue|
    ensures IsRun(cfg, s, Drains(c, n))
    ensures Exec(cfg, s, Drains(c, n)) == s.(box := s.box.(poolQueue := s.box.poolQueue[n..]))
    decreases n
  {
    if n > 0 {
      var t := Apply(cfg, s, DrainOne(c));
      DrainsRun(cfg, t, c, n - 1);
      assert t.box.poolQueue[n - 1..] == s.box.poolQueue[n..];
      assert Drains(c, n)[1..] == Drains(c, n - 1);
    }
  }

  /** The teardown of a released generation, with nobody in between. */
  lemma TeardownRuns(cfg: Config, s: State, c: nat)
    requires c in s.controls && s.controls[c].Cleared?
    ensures var steps := Drains(c, |s.box.poolQueue|) + [DrainEnd(c), DropSessions(c)];
            && IsRun(cfg, s, steps)
            && Exec(cfg, s, steps).box == s.box.(poolQueue := [], sessions := [])
            && Exec(cfg, s, steps).entering == s.entering
            && Exec(cfg, s, steps).controls == s.controls[c := Finished(s.controls[c].epoch)]
            && Exec(cfg, s, steps).flowCh == s.flowCh
  {
    var n := |s.box.poolQueue|;
    DrainsRun(cfg, s, c, n);
    var s2 := Exec(cfg, s, Drains(c, n));
    var s3 := Apply(cfg, s2, DrainEnd(c));
    ExecOne(cfg, s3, DropSessions(c));
    Prefixed(cfg, s2, DrainEnd(c), [DropSessions(c)]);
    assert [DrainEnd(c)] + [DropSessions(c)] == [DrainEnd(c), DropSessions(c)];
    ExecAppend(cfg, s, Drains(c, n), [DrainEnd(c), DropSessions(c)]);
  }

  /** The end of a generation, slot and pool together: nothing is left for users. */
  lemma OverEmptiesPool(cfg: Config, s: State, c: nat)
    requires Enabled(cfg, s, Clear(c))
    ensures CanDo(cfg, s, Over(c))
    ensures var t := Do(cfg, s, Over(c));
            && t.box == Released(s.box, c).(poolQueue := [], sessions := [])
            && t.entering == s.entering && Listed(t.box) == []
            && t.controls == s.controls[c := Finished(s.controls[c].epoch)] && t.flowCh == s.flowCh
  {
    var s1 := Apply(cfg, s, Clear(c));
    assert s1.box.poolQueue == s.box.poolQueue;
    TeardownRuns(cfg, s1, c);
    Prefixed(cfg, s, Clear(c), Drains(c, |s.box.poolQueue|) + [DrainEnd(c), DropSessions(c)]);
  }

  lemma OverNeedsClear(cfg: Config, s: State, c: nat)
    requires CanDo(cfg, s, Over(c))
    ensures Enabled(cfg, s, Clear(c))
  {
    assert Expand(s, Over(c))[0] == Clear(c);
  }

  lemma SingleStep(cfg: Config, s: State, m: Macro)
    requires CanDo(cfg, s, m) && !m.Over? && !m.Join? && !m.Queue?
    ensures |Expand(s, m)| == 1 && Enabled(cfg, s, Expand(s, m)[0])
    ensures Do(cfg, s, m) == Apply(cfg, s, Expand(s, m)[0])
  {
    var step := Expand(s, m)[0];
    assert Expand(s, m) == [step];
    ExecOne(cfg, s, step);
  }

  lemma JoinSteps(cfg: Config, s: State, p: nat, e: Epoch)
    requires CanDo(cfg, s, Join(p, e)) && s.entering == map[]
    ensures Enabled(cfg, s, Enter(p, e))
    ensures Do(cfg, s, Join(p, e)) == s.(box := Joined(cfg.kind, cfg.mode, s.box, Carrier(p, e)))
  {
    var steps := Expand(s, Join(p, e));
    var t := Apply(cfg, s, Enter(p, e));
    assert steps[1..] == [Admit(p)];
    ExecOne(cfg, t, Admit(p));
    assert t.entering - {p} == map[];
  }

  lemma QueueSteps(cfg: Config, s: State, p: nat, e: Epoch)
    requires CanDo(cfg, s, Queue(p, e)) && s.entering == map[]
    ensures Enabled(cfg, s, Enter(p, e)) && cfg.mode.Udp? && cfg.kind.ReverseServer?
    ensures Do(cfg, s, Queue(p, e))
            == s.(flowCh := if |s.flowCh| < QUEUE_CAP then s.flowCh + [Carrier(p, e)] else s.flowCh)
  {
    var steps := Expand(s, Queue(p, e));
    var t := Apply(cfg, s, Enter(p, e));
    assert steps[1..] == [QueueFlow(p)];
    assert IsRun(cfg, t, steps[1..]) && steps[1..][0] == QueueFlow(p);
    ExecOne(cfg, t, QueueFlow(p));
    assert t.entering - {p} == map[];
  }

  lemma {:induction false} KeepSubset(sessions: seq<Carrier>, closed: set<nat>)
    ensures forall x :: x in Keep(sessions, closed) ==> x in sessions && x.conn !in closed
    ensures forall x :: x in sessions && x.conn !in closed ==> x in Keep(sessions, closed)
  {
    if sessions != [] {
      KeepSubset(sessions[1..], closed);
      assert sessions == [sessions[0]] + sessions[1..];
    }
  }

  lemma JoinedLists(kind: Kind, mode: Mode, b: Box, c: Carrier)
    ensures forall x :: x in Listed(Joined(kind, mode, b, c)) ==> x in Listed(b) || x == c
  {
  }

  /** Steps that only take carriers away. */
  lemma FewerListed(cfg: Config, s: State, m: Macro)
    requires CanDo(cfg, s, m) && (m.Take? || m.Reap? || m.Claim?)
    ensures forall x :: x in Listed(Do(cfg, s, m).box) ==> x in Listed(s.box)
    ensures Do(cfg, s, m).controls == s.controls && Do(cfg, s, m).box.epoch == s.box.epoch
    ensures Do(cfg, s, m).box.controlConn == s.box.controlConn
    ensures Do(cfg, s, m).entering == s.entering
  {
    SingleStep(cfg, s, m);
    if m.Reap? {
      KeepSubset(s.box.sessions, m.closed);
    }
  }

  lemma CoarseJoin(cfg: Config, s: State, p: nat, e: Epoch)
    requires CoarseInv(cfg.kind, s) && CanDo(cfg, s, Join(p, e))
    ensures AllLive(Do(cfg, s, Join(p, e))) && Do(cfg, s, Join(p, e)).entering == map[]
  {
    JoinSteps(cfg, s, p, e);
    AdmissibleIsAlive(cfg, s, e);
    JoinedLists(cfg.kind, cfg.mode, s.box, Carrier(p, e));
    var t := Do(cfg, s, Join(p, e));
    forall x | x in Listed(t.box)
      ensures Live(t, x.epoch)
    {
      assert Live(s, x.epoch);
    }
  }

  lemma CoarseShrink(cfg: Config, s: State, m: Macro)
    requires CoarseInv(cfg.kind, s) && CanDo(cfg, s, m) && (m.Take? || m.Reap? || m.Claim? || m.Over?)
    ensures AllLive(Do(cfg, s, m)) && Do(cfg, s, m).entering == map[]
  {
    if m.Over? {
      OverNeedsClear(cfg, s, m.c);
      OverEmptiesPool(cfg, s, m.c);
    } else {
      FewerListed(cfg, s, m);
      var t := Do(cfg, s, m);
      forall x | x in Listed(t.box)
        ensures Live(t, x.epoch)
      {
        assert Live(s, x.epoch);
      }
    }
  }

  lemma CoarseControl(cfg: Config, s: State, m: Macro)
    requires CoarseInv(cfg.kind, s) && CanDo(cfg, s, m) && (m.Begin? || m.Abort? || m.Open?)
    ensures AllLive(Do(cfg, s, m)) && Do(cfg, s, m).entering == map[]
  {
    SingleStep(cfg, s, m);
    StillLive(s, Do(cfg, s, m));
  }

  lemma CoarseKeeps(cfg: Config, s: State, m: Macro)
    requires CoarseInv(cfg.kind, s) && CanDo(cfg, s, m)
    ensures CoarseInv(cfg.kind, Do(cfg, s, m))
  {
    SlotInvariantHolds(cfg, s, Expand(s, m));
    if m.Join? {
      CoarseJoin(cfg, s, m.p, m.e);
    } else if m.Queue? {
      QueueSteps(cfg, s, m.p, m.e);
      StillLive(s, Do(cfg, s, m));
    } else if m.Take? || m.Reap? || m.Claim? || m.Over? {
      CoarseShrink(cfg, s, m);
    } else {
      CoarseControl(cfg, s, m);
    }
  }

  lemma StillLive(s: State, t: State)
    requires AllLive(s) && Listed(t.box) == Listed(s.box)
    requires forall c :: c in s.controls && s.controls[c].Running? ==> c in t.controls && t.controls[c] == s.controls[c]
    ensures AllLive(t)
  {
    forall x | x in Listed(t.box)
      ensures Live(t, x.epoch)
    {
      assert Live(s, x.epoch);
    }
  }

  lemma {:induction false} CoarseInvariantHolds(cfg: Config, s: State, ms: seq<Macro>)
    requires CoarseInv(cfg.kind, s) && IsCoarseRun(cfg, s, ms)
    ensures CoarseInv(cfg.kind, CoarseExec(cfg, s, ms))
    decreases |ms|
  {
    if ms != [] {
      CoarseKeeps(cfg, s, ms[0]);
      CoarseInvariantHolds(cfg, Do(cfg, s, ms[0]), ms[1..]);
    }
  }

  /** Generation safety over every coarse run, overlapping control connections included: no carrier
      that a user of mode tcp or tcpmux could be handed belongs to a generation that has ended. Mode
      udp hands out queued flows instead; see QueuedFlowsExactly. */
  lemma NoCarrierOfAnEndedGeneration(cfg: Config, ms: seq<Macro>)
    requires IsCoarseRun(cfg, INIT, ms)
    ensures var s := CoarseExec(cfg, INIT, ms);
            forall x :: x in Listed(s.box) ==> Live(s, x.epoch) && x.epoch !in s.ended
  {
    CoarseInvariantHolds(cfg, INIT, ms);
    var s := CoarseExec(cfg, INIT, ms);
    forall x | x in Listed(s.box)
      ensures x.epoch !in s.ended
    {
      assert Live(s, x.epoch);
    }
  }

  // ---- the published epoch ----

  lemma MatchesKept(cfg: Config, s: State, m: Macro)
    requires cfg.kind.ReverseServer? && CoarseInv(cfg.kind, s) && Matches(s) && CanDo(cfg, s, m)
    requires m.Open? ==> Listed(s.box) == []
    ensures Matches(Do(cfg, s, m))
  {
    match m
    case Over(c) =>
      OverNeedsClear(cfg, s, c);
      OverEmptiesPool(cfg, s, c);
    case Join(p, e) =>
      JoinSteps(cfg, s, p, e);
      JoinedLists(cfg.kind, cfg.mode, s.box, Carrier(p, e));
    case Take => FewerListed(cfg, s, m);
    case Reap(_) => FewerListed(cfg, s, m);
    case Claim => FewerListed(cfg, s, m);
    case Queue(p, e) => QueueSteps(cfg, s, p, e);
    case _ => SingleStep(cfg, s, m);
  }

  /** A publication keeps the pool matched exactly when the pool is empty, and a free slot is enough
      for that. */
  lemma PublicationOverAPool(cfg: Config, s: State, c: nat)
    requires cfg.kind.ReverseServer? && CoarseInv(cfg.kind, s) && Matches(s) && CanDo(cfg, s, Open(c))
    ensures Matches(Do(cfg, s, Open(c))) <==> Listed(s.box) == []
    ensures s.box.controlConn == None ==> Listed(s.box) == []
  {
    SingleStep(cfg, s, Open(c));
    var t := Do(cfg, s, Open(c));
    if Listed(s.box) != [] {
      var x := Listed(s.box)[0];
      assert x in Listed(s.box) && x in Listed(t.box);
      assert Live(s, x.epoch);
    } else {
      assert Listed(t.box) == [];
    }
  }

  predicate AlwaysMatches(cfg: Config, s: State, ms: seq<Macro>)
    requires IsCoarseRun(cfg, s, ms)
    decreases |ms|
  {
    Matches(s) && (ms == [] || AlwaysMatches(cfg, Do(cfg, s, ms[0]), ms[1..]))
  }

  /** Every publication of the run found no carrier listed. */
  predicate CleanPublications(cfg: Config, s: State, ms: seq<Macro>)
    requires IsCoarseRun(cfg, s, ms)
    decreases |ms|
  {
    ms == [] || ((ms[0].Open? ==> Listed(s.box) == [])
                 && CleanPublications(cfg, Do(cfg, s, ms[0]), ms[1..]))
  }

  /** Every publication of the run found the slot still free, as the earlier test did. */
  predicate FreeSlotPublications(cfg: Config, s: State, ms: seq<Macro>)
    requires IsCoarseRun(cfg, s, ms)
    decreases |ms|
  {
    ms == [] || ((ms[0].Open? ==> s.box.controlConn == None)
                 && FreeSlotPublications(cfg, Do(cfg, s, ms[0]), ms[1..]))
  }

  lemma {:induction false} MatchesExactly(cfg: Config, s: State, ms: seq<Macro>)
    requires cfg.kind.ReverseServer? && CoarseInv(cfg.kind, s) && Matches(s) && IsCoarseRun(cfg, s, ms)
    ensures AlwaysMatches(cfg, s, ms) <==> CleanPublications(cfg, s, ms)
    ensures FreeSlotPublications(cfg, s, ms) ==> CleanPublications(cfg, s, ms)
    decreases |ms|
  {
    if ms != [] {
      var m := ms[0];
      var t := Do(cfg, s, m);
      CoarseKeeps(cfg, s, m);
      if m.Open? {
        PublicationOverAPool(cfg, s, m.c);
      }
      if m.Open? && Listed(s.box) != [] {
        assert !Matches(t);
      } else {
        MatchesKept(cfg, s, m);
        MatchesExactly(cfg, t, ms[1..]);
      }
    }
  }

  /** Generation safety in its strong form, and exactly when it holds: throughout a coarse run every
      listed carrier presented the currently published epoch if and only if no control connection was
      published over a non-empty pool; publishing only into a slot that is still free suffices. */
  lemma PublishedEpochSafety(cfg: Config, ms: seq<Macro>)
    requires cfg.kind.ReverseServer? && IsCoarseRun(cfg, INIT, ms)
    ensures AlwaysMatches(cfg, INIT, ms) <==> CleanPublications(cfg, INIT, ms)
    ensures FreeSlotPublications(cfg, INIT, ms) ==> AlwaysMatches(cfg, INIT, ms)
  {
    MatchesExactly(cfg, INIT, ms);
  }

  /** Two control connections are past the test and the first has published. */
  lemma TwoPastTheTest(cfg: Config, rest: seq<Macro>) returns (s: State)
    ensures var ms := [Begin(0)] + ([Begin(1)] + ([Open(0)] + rest));
            && (IsCoarseRun(cfg, INIT, ms) <==> IsCoarseRun(cfg, s, rest))
            && (IsCoarseRun(cfg, s, rest) ==> CoarseExec(cfg, INIT, ms) == CoarseExec(cfg, s, rest))
    ensures s.controls == map[0 := Running(0, 0), 1 := Tested(1)] && s.made == 1
    ensures s.box == Published(cfg.kind, INIT.box, 0, 0, 0) && s.entering == map[]
  {
    var s1 := Apply(cfg, INIT, Test(0));
    var s2 := Apply(cfg, s1, Test(1));
    s := Apply(cfg, s2, Publish(0));
    assert s.controls == map[0 := Running(0, 0), 1 := Tested(1)];
    CoarseFirst(cfg, INIT, Begin(0), Test(0), [Begin(1)] + ([Open(0)] + rest));
    CoarseFirst(cfg, s1, Begin(1), Test(1), [Open(0)] + rest);
    CoarseFirst(cfg, s2, Open(0), Publish(0), rest);
  }

  /** The test and the publication are separate steps, so the strong form can fail: two control
      connections find the slot free, the first publishes and gets a carrier, the second publishes
      over it, and the first one's carrier is still listed. */
  lemma OverlapBreaksMatching() returns (cfg: Config, ms: seq<Macro>)
    ensures cfg.kind.ReverseServer? && IsCoarseRun(cfg, INIT, ms)
    ensures !Matches(CoarseExec(cfg, INIT, ms))
  {
    cfg := Config(ReverseServer, Tcp, 1);
    var rest := [Join(7, 0)] + ([Open(1)] + []);
    var s := TwoPastTheTest(cfg, rest);
    CanJoin(cfg, s, 7, 0);
    JoinSteps(cfg, s, 7, 0);
    var joined := Do(cfg, s, Join(7, 0));
    assert joined.box == s.box.(poolQueue := [] + [Carrier(7, 0)]);
    CoarseFirst(cfg, joined, Open(1), Publish(1), []);
    NextMacro(cfg, s, Join(7, 0), [Open(1)] + []);
    ms := [Begin(0)] + ([Begin(1)] + ([Open(0)] + rest));
    var last := Apply(cfg, joined, Publish(1));
    assert last.box.epoch == Some(1) && last.box.poolQueue[0] == Carrier(7, 0);
    hide Do, CanDo, Expand;
    assert last.box.poolQueue[0] in Listed(last.box);
  }

  lemma CanJoin(cfg: Config, s: State, p: nat, e: Epoch)
    requires Enabled(cfg, s, Enter(p, e))
    ensures CanDo(cfg, s, Join(p, e))
  {
    var entered := Apply(cfg, s, Enter(p, e));
    ExecOne(cfg, entered, Admit(p));
    Prefixed(cfg, s, Enter(p, e), [Admit(p)]);
    assert [Enter(p, e)] + [Admit(p)] == Expand(s, Join(p, e));
  }

  lemma CoarseFirst(cfg: Config, s: State, m: Macro, step: Step, rest: seq<Macro>)
    requires Expand(s, m) == [step] && Enabled(cfg, s, step)
    ensures var t := Apply(cfg, s, step);
            && (IsCoarseRun(cfg, s, [m] + rest) <==> IsCoarseRun(cfg, t, rest))
            && (IsCoarseRun(cfg, t, rest) ==> CoarseExec(cfg, s, [m] + rest) == CoarseExec(cfg, t, rest))
  {
    ExecOne(cfg, s, step);
    assert ([m] + rest)[1..] == rest;
  }

  // ---- the dialing server ----

  /** Every control connection of the run begins when the one before it is over and torn down. */
  predicate Sequential(cfg: Config, s: State, ms: seq<Macro>)
    requires IsCoarseRun(cfg, s, ms)
    decreases |ms|
  {
    ms == [] || ((ms[0].Begin? ==> forall c :: c in s.controls ==> s.controls[c].Finished?)
                 && Sequential(cfg, Do(cfg, s, ms[0]), ms[1..]))
  }

  /** At most one control connection is not over, and if it is running it holds the slot. */
  ghost predicate OneAtATime(s: State) {
    && (forall c, d :: c in s.controls && d in s.controls && !s.controls[c].Finished? && !s.controls[d].Finished?
          ==> c == d)
    && (forall c :: c in s.controls && s.controls[c].Running? ==> s.box.controlConn == Some(c))
  }

  lemma OneAtATimeMatches(kind: Kind, s: State)
    requires CoarseInv(kind, s) && OneAtATime(s)
    ensures Matches(s)
  {
    forall x | x in Listed(s.box)
      ensures s.box.epoch == Some(x.epoch)
    {
      assert Live(s, x.epoch);
    }
  }

  lemma OneAtATimeKept(cfg: Config, s: State, m: Macro)
    requires s.entering == map[] && OneAtATime(s) && CanDo(cfg, s, m)
    requires m.Begin? ==> forall c :: c in s.controls ==> s.controls[c].Finished?
    ensures OneAtATime(Do(cfg, s, m))
  {
    match m
    case Over(c) =>
      OverNeedsClear(cfg, s, c);
      OverEmptiesPool(cfg, s, c);
    case Join(p, e) => JoinSteps(cfg, s, p, e);
    case Queue(p, e) => QueueSteps(cfg, s, p, e);
    case Begin(_) => SingleStep(cfg, s, m);
    case Abort(_) => SingleStep(cfg, s, m);
    case Open(_) => SingleStep(cfg, s, m);
    case _ => FewerListed(cfg, s, m); OneAtATimeFrame(s, Do(cfg, s, m));
  }

  lemma OneAtATimeFrame(s: State, t: State)
    requires OneAtATime(s) && t.controls == s.controls && t.box.controlConn == s.box.controlConn
    ensures OneAtATime(t)
  {
  }

  lemma {:induction false} SequentialMatches(cfg: Config, s: State, ms: seq<Macro>)
    requires CoarseInv(cfg.kind, s) && OneAtATime(s) && IsCoarseRun(cfg, s, ms) && Sequential(cfg, s, ms)
    ensures AlwaysMatches(cfg, s, ms)
    decreases |ms|
  {
    OneAtATimeMatches(cfg.kind, s);
    hide SlotInv, AllLive, OneAtATime, Do, CanDo;
    if ms != [] {
      OneAtATimeKept(cfg, s, ms[0]);
      CoarseKeeps(cfg, s, ms[0]);
      SequentialMatches(cfg, Do(cfg, s, ms[0]), ms[1..]);
    }
  }

  /** A box that runs its control connections one after the other, as the dialing server does, has
      the strong form of safety in every coarse run. */
  lemma SequentialSafety(cfg: Config, ms: seq<Macro>)
    requires IsCoarseRun(cfg, INIT, ms) && Sequential(cfg, INIT, ms)
    ensures AlwaysMatches(cfg, INIT, ms)
  {
    SequentialMatches(cfg, INIT, ms);
  }

  // ---- mode udp: queued flows ----

  /** Every flow a user could be handed belongs to a generation that is still running. */
  ghost predicate FlowsLive(s: State) {
    forall x :: x in s.flowCh ==> Live(s, x.epoch)
  }

  ghost predicate AlwaysFlowsLive(cfg: Config, s: State, ms: seq<Macro>)
    requires IsCoarseRun(cfg, s, ms)
    decreases |ms|
  {
    FlowsLive(s) && (ms == [] || AlwaysFlowsLive(cfg, Do(cfg, s, ms[0]), ms[1..]))
  }

  /** A flow of the generation that `c` runs is queued. */
  predicate HasQueued(s: State, c: nat) {
    c in s.controls && exists x :: x in s.flowCh && x.epoch == s.controls[c].epoch
  }

  /** Every generation of the run ends with none of its flows queued. */
  predicate EndsUnqueued(cfg: Config, s: State, ms: seq<Macro>)
    requires IsCoarseRun(cfg, s, ms)
    decreases |ms|
  {
    ms == [] || ((ms[0].Over? ==> !HasQueued(s, ms[0].c)) && EndsUnqueued(cfg, Do(cfg, s, ms[0]), ms[1..]))
  }

  lemma FlowsAtEnd(cfg: Config, s: State, c: nat)
    requires CoarseInv(cfg.kind, s) && FlowsLive(s) && CanDo(cfg, s, Over(c))
    ensures FlowsLive(Do(cfg, s, Over(c))) <==> !HasQueued(s, c)
  {
    OverNeedsClear(cfg, s, c);
    OverEmptiesPool(cfg, s, c);
    var t := Do(cfg, s, Over(c));
    forall x | x in s.flowCh
      ensures Live(t, x.epoch) <==> x.epoch != s.controls[c].epoch
    {
      var d :| d in s.controls && s.controls[d].Running? && s.controls[d].epoch == x.epoch;
      assert d != c ==> t.controls[d] == s.controls[d];
    }
  }

  lemma FlowsQueue(cfg: Config, s: State, p: nat, e: Epoch)
    requires CoarseInv(cfg.kind, s) && FlowsLive(s) && CanDo(cfg, s, Queue(p, e))
    ensures FlowsLive(Do(cfg, s, Queue(p, e)))
  {
    QueueSteps(cfg, s, p, e);
    AdmissibleIsAlive(cfg, s, e);
    FlowsStillLive(s, Do(cfg, s, Queue(p, e)), e);
  }

  /** Who runs goes on running, and no flow is new but of the live generation `e`. */
  lemma FlowsStillLive(s: State, t: State, e: Epoch)
    requires FlowsLive(s)
    requires forall c :: c in s.controls && s.controls[c].Running? ==> c in t.controls && t.controls[c] == s.controls[c]
    requires forall x :: x in t.flowCh ==> x in s.flowCh || (x.epoch == e && Live(s, e))
    ensures FlowsLive(t)
  {
    forall x | x in t.flowCh
      ensures Live(t, x.epoch)
    {
      assert Live(s, x.epoch);
    }
  }

  lemma FlowsElsewhere(cfg: Config, s: State, m: Macro)
    requires CoarseInv(cfg.kind, s) && FlowsLive(s) && CanDo(cfg, s, m) && !m.Over?
    ensures FlowsLive(Do(cfg, s, m))
  {
    match m {
      case Join(p, e) =>
        JoinSteps(cfg, s, p, e);
        FlowsStillLive(s, Do(cfg, s, m), 0);
      case Queue(p, e) =>
        FlowsQueue(cfg, s, p, e);
      case Over(_) =>
      case _ =>
        SingleStep(cfg, s, m);
        hide SlotInv, AllLive;
        FlowsStillLive(s, Do(cfg, s, m), 0);
    }
  }

  lemma {:induction false} FlowsExactly(cfg: Config, s: State, ms: seq<Macro>)
    requires CoarseInv(cfg.kind, s) && FlowsLive(s) && IsCoarseRun(cfg, s, ms)
    ensures AlwaysFlowsLive(cfg, s, ms) <==> EndsUnqueued(cfg, s, ms)
    decreases |ms|
  {
    hide CoarseInv, Do, CanDo, FlowsLive, HasQueued;
    if ms != [] {
      var t := Do(cfg, s, ms[0]);
      CoarseKeeps(cfg, s, ms[0]);
      if ms[0].Over? {
        FlowsAtEnd(cfg, s, ms[0].c);
      } else {
        FlowsElsewhere(cfg, s, ms[0]);
      }
      if FlowsLive(t) {
        FlowsExactly(cfg, t, ms[1..]);
      }
    }
  }

  /** Generation safety in mode udp, exactly: throughout a coarse run every queued flow belongs to a
      generation that is still running if and only if every generation ended with none of its flows
      queued, since the teardown leaves the queue of flows alone. */
  lemma QueuedFlowsExactly(cfg: Config, ms: seq<Macro>)
    requires IsCoarseRun(cfg, INIT, ms)
    ensures AlwaysFlowsLive(cfg, INIT, ms) <==> EndsUnqueued(cfg, INIT, ms)
  {
    FlowsExactly(cfg, INIT, ms);
  }

  /** And it can fail: a flow is queued, its generation ends and is torn down, and the flow is still
      there to be claimed. */
  lemma DeadFlowCanBeClaimed() returns (cfg: Config, ms: seq<Macro>)
    ensures cfg.mode.Udp? && cfg.kind.ReverseServer? && IsCoarseRun(cfg, INIT, ms)
    ensures var s := CoarseExec(cfg, INIT, ms);
            && Enabled(cfg, s, ClaimFlow) && s.flowCh[0].epoch in s.torn && s.box.epoch == None
  {
    cfg := Config(ReverseServer, Udp, 1);
    var queued := OneQueuedFlow(cfg, [Over(0)]);
    assert Enabled(cfg, queued, Clear(0)) && queued.controls[0].epoch == 0;
    OverEmptiesPool(cfg, queued, 0);
    TornByOver(cfg, queued, 0);
    NextMacro(cfg, queued, Over(0), []);
    assert [Over(0)] + [] == [Over(0)];
    ms := [Begin(0)] + ([Open(0)] + ([Queue(7, 0)] + [Over(0)]));
  }

  lemma OneQueuedFlow(cfg: Config, rest: seq<Macro>) returns (s: State)
    requires cfg == Config(ReverseServer, Udp, 1)
    ensures var ms := [Begin(0)] + ([Open(0)] + ([Queue(7, 0)] + rest));
            && (IsCoarseRun(cfg, INIT, ms) <==> IsCoarseRun(cfg, s, rest))
            && (IsCoarseRun(cfg, s, rest) ==> CoarseExec(cfg, INIT, ms) == CoarseExec(cfg, s, rest))
    ensures 0 in s.controls && s.controls[0] == Running(0, 0) && s.box == Published(cfg.kind, INIT.box, 0, 0, 0)
    ensures s.flowCh == [Carrier(7, 0)]
  {
    var s1 := Apply(cfg, INIT, Test(0));
    var s2 := Apply(cfg, s1, Publish(0));
    s := s2.(flowCh := [Carrier(7, 0)]);
    CoarseFirst(cfg, INIT, Begin(0), Test(0), [Open(0)] + ([Queue(7, 0)] + rest));
    CoarseFirst(cfg, s1, Open(0), Publish(0), [Queue(7, 0)] + rest);
    CoarseQueue(cfg, s2, 7, 0, rest);
  }

  lemma CoarseQueue(cfg: Config, s: State, p: nat, e: Epoch, rest: seq<Macro>)
    requires cfg.mode.Udp? && cfg.kind.ReverseServer? && Enabled(cfg, s, Enter(p, e)) && s.entering == map[]
    requires s.flowCh == []
    ensures var t := s.(flowCh := [Carrier(p, e)]);
            && (IsCoarseRun(cfg, s, [Queue(p, e)] + rest) <==> IsCoarseRun(cfg, t, rest))
            && (IsCoarseRun(cfg, t, rest) ==> CoarseExec(cfg, s, [Queue(p, e)] + rest) == CoarseExec(cfg, t, rest))
  {
    CanQueue(cfg, s, p, e);
    QueueSteps(cfg, s, p, e);
    assert s.flowCh + [Carrier(p, e)] == [Carrier(p, e)];
    NextMacro(cfg, s, Queue(p, e), rest);
  }

  lemma NextMacro(cfg: Config, s: State, m: Macro, rest: seq<Macro>)
    requires CanDo(cfg, s, m)
    ensures var t := Do(cfg, s, m);
            && (IsCoarseRun(cfg, s, [m] + rest) <==> IsCoarseRun(cfg, t, rest))
            && (IsCoarseRun(cfg, t, rest) ==> CoarseExec(cfg, s, [m] + rest) == CoarseExec(cfg, t, rest))
  {
    hide CanDo, Do;
    assert ([m] + rest)[0] == m && ([m] + rest)[1..] == rest;
  }

  lemma CanQueue(cfg: Config, s: State, p: nat, e: Epoch)
    requires cfg.mode.Udp? && cfg.kind.ReverseServer? && Enabled(cfg, s, Enter(p, e))
    ensures CanDo(cfg, s, Queue(p, e))
  {
    var entered := Apply(cfg, s, Enter(p, e));
    ExecOne(cfg, entered, QueueFlow(p));
    Prefixed(cfg, s, Enter(p, e), [QueueFlow(p)]);
    assert [Enter(p, e)] + [QueueFlow(p)] == Expand(s, Queue(p, e));
  }

  lemma TornByOver(cfg: Config, s: State, c: nat)
    requires Enabled(cfg, s, Clear(c)) && s.box.poolQueue == []
    ensures CanDo(cfg, s, Over(c)) && s.controls[c].epoch in Do(cfg, s, Over(c)).torn
  {
    OverEmptiesPool(cfg, s, c);
    var s1 := Apply(cfg, s, Clear(c));
    var s2 := Apply(cfg, s1, DrainEnd(c));
    ExecOne(cfg, s2, DropSessions(c));
    Prefixed(cfg, s1, DrainEnd(c), [DropSessions(c)]);
    Prefixed(cfg, s, Clear(c), [DrainEnd(c)] + [DropSessions(c)]);
    assert Expand(s, Over(c)) == [Clear(c)] + ([DrainEnd(c)] + [DropSessions(c)]);
  }

  // ---- requestMore ----

  /** The control loop of `c` ends during these steps while it still owns the slot. */
  predicate OwnerEnds(cfg: Config, s: State, steps: seq<Step>, c: nat)
    requires IsRun(cfg, s, steps)
    decreases |steps|
  {
    steps != [] &&
    ((steps[0] == Clear(c) && s.box.controlConn == Some(c))
     || OwnerEnds(cfg, Apply(cfg, s, steps[0]), steps[1..], c))
  }

  lemma {:induction false} ClosedStaysClosed(cfg: Config, s: State, steps: seq<Step>, ch: Chan)
    requires IsRun(cfg, s, steps) && ch in s.closes
    ensures ch in Exec(cfg, s, steps).closes
    decreases |steps|
  {
    if steps != [] {
      ClosedStaysClosed(cfg, Apply(cfg, s, steps[0]), steps[1..], ch);
    }
  }

  /** No running connection owns the channel and it is not closed; `c` has ended. */
  ghost predicate Abandoned(s: State, c: nat, ch: Chan) {
    && ch < s.made && ch !in s.closes
    && c in s.controls && !s.controls[c].Tested? && !s.controls[c].Running?
    && (forall d :: d in s.controls && s.controls[d].Running? ==> s.controls[d].out != ch)
  }

  lemma AbandonedStep(cfg: Config, s: State, step: Step, c: nat, ch: Chan)
    requires cfg.kind.ReverseServer? && SlotInv(cfg.kind, s) && Enabled(cfg, s, step)
    requires Abandoned(s, c, ch)
    ensures Abandoned(Apply(cfg, s, step), c, ch)
  {
    var t := Apply(cfg, s, step);
    assert ch !in t.closes;
  }

  /** A channel nobody running owns is never closed any more, and its connection never ends again. */
  lemma {:induction false} NeverClosedLater(cfg: Config, s: State, steps: seq<Step>, c: nat, ch: Chan)
    requires cfg.kind.ReverseServer? && SlotInv(cfg.kind, s) && IsRun(cfg, s, steps)
    requires Abandoned(s, c, ch)
    ensures ch !in Exec(cfg, s, steps).closes && !OwnerEnds(cfg, s, steps, c)
    decreases |steps|
  {
    hide SlotInv;
    if steps != [] {
      SlotStep(cfg, s, steps[0]);
      AbandonedStep(cfg, s, steps[0], c, ch);
      NeverClosedLater(cfg, Apply(cfg, s, steps[0]), steps[1..], c, ch);
    }
  }

  /** The end of `c`'s loop closes its channel, or leaves it to nobody. */
  lemma EndDecides(cfg: Config, s: State, c: nat)
    requires cfg.kind.ReverseServer? && SlotInv(cfg.kind, s) && Enabled(cfg, s, Clear(c))
    ensures var t := Apply(cfg, s, Clear(c));
            if s.box.controlConn == Some(c) then s.controls[c].out in t.closes
            else Abandoned(t, c, s.controls[c].out)
  {
    var t := Apply(cfg, s, Clear(c));
    assert s.box.controlConn == Some(c) ==> t.closes[|s.closes|] == s.controls[c].out;
  }

  lemma {:induction false} ChannelFate(cfg: Config, s: State, steps: seq<Step>, c: nat)
    requires cfg.kind.ReverseServer? && SlotInv(cfg.kind, s) && IsRun(cfg, s, steps)
    requires c in s.controls && s.controls[c].Running?
    ensures s.controls[c].out in Exec(cfg, s, steps).closes <==> OwnerEnds(cfg, s, steps, c)
    decreases |steps|
  {
    RunningUnclosed(cfg.kind, s, c);
    hide SlotInv;
    if steps != [] {
      var t := Apply(cfg, s, steps[0]);
      SlotStep(cfg, s, steps[0]);
      if steps[0] != Clear(c) {
        RunningStays(cfg, s, steps[0], c);
        ChannelFate(cfg, t, steps[1..], c);
      } else {
        EndDecides(cfg, s, c);
        if s.box.controlConn == Some(c) {
          ClosedStaysClosed(cfg, t, steps[1..], s.controls[c].out);
        } else {
          NeverClosedLater(cfg, t, steps[1..], c, s.controls[c].out);
        }
      }
    }
  }

  lemma RunningUnclosed(kind: Kind, s: State, c: nat)
    requires SlotInv(kind, s) && c in s.controls && s.controls[c].Running?
    ensures s.controls[c].out !in s.closes
  {
  }

  lemma RunningStays(cfg: Config, s: State, step: Step, c: nat)
    requires Enabled(cfg, s, step) && step != Clear(c)
    requires c in s.controls && s.controls[c].Running?
    ensures c in Apply(cfg, s, step).controls && Apply(cfg, s, step).controls[c] == s.controls[c]
  {
  }

  lemma {:induction false} SenderHolds(cfg: Config, s: State, steps: seq<Step>, r: nat)
    requires IsRun(cfg, s, steps) && r in s.senders && SendNeed(r) !in steps
    ensures r in Exec(cfg, s, steps).senders && Exec(cfg, s, steps).senders[r] == s.senders[r]
    decreases |steps|
  {
    if steps != [] {
      var t := Apply(cfg, s, steps[0]);
      assert steps[0] in steps;
      assert r in t.senders && t.senders[r] == s.senders[r];
      assert SendNeed(r) !in steps[1..];
      SenderHolds(cfg, t, steps[1..], r);
    }
  }

  /** requestMore reads the channel under the lock and sends on it afterwards without. Whatever
      happens in between, the send meets a closed channel if and only if the generation that was
      published at the read has ended in between while still owning the slot. */
  lemma RequestMorePanicsExactly(cfg: Config, before: seq<Step>, r: nat, between: seq<Step>)
    requires cfg.kind.ReverseServer? && IsRun(cfg, INIT, before)
    requires Enabled(cfg, Exec(cfg, INIT, before), ReadOut(r))
    requires IsRun(cfg, Apply(cfg, Exec(cfg, INIT, before), ReadOut(r)), between)
    requires SendNeed(r) !in between
    ensures var read := Exec(cfg, INIT, before);
            var held := Apply(cfg, read, ReadOut(r));
            var send := Exec(cfg, held, between);
            && read.box.controlConn.Some? && Enabled(cfg, send, SendNeed(r))
            && (send.senders[r] in send.closes
                <==> OwnerEnds(cfg, held, between, read.box.controlConn.value))
  {
    SlotInvariantHolds(cfg, INIT, before);
    var read := Exec(cfg, INIT, before);
    var held := Apply(cfg, read, ReadOut(r));
    SlotStep(cfg, read, ReadOut(r));
    SenderHolds(cfg, held, between, r);
    ChannelFate(cfg, held, between, read.box.controlConn.value);
  }

  /** The shortest run to it: the next send meets a closed channel. */
  lemma RequestMoreCanPanic() returns (cfg: Config, steps: seq<Step>)
    ensures cfg.kind.ReverseServer? && IsRun(cfg, INIT, steps)
    ensures var s := Exec(cfg, INIT, steps); Enabled(cfg, s, SendNeed(9)) && s.senders[9] in s.closes
  {
    cfg := Config(ReverseServer, Tcp, 0);
    var s1 := Apply(cfg, INIT, Test(0));
    var s2 := Apply(cfg, s1, Publish(0));
    var s3 := Apply(cfg, s2, ReadOut(9));
    var s4 := Apply(cfg, s3, Clear(0));
    ExecOne(cfg, s3, Clear(0));
    Prefixed(cfg, s2, ReadOut(9), [Clear(0)]);
    Prefixed(cfg, s1, Publish(0), [ReadOut(9)] + [Clear(0)]);
    Prefixed(cfg, INIT, Test(0), [Publish(0)] + ([ReadOut(9)] + [Clear(0)]));
    steps := [Test(0)] + ([Publish(0)] + ([ReadOut(9)] + [Clear(0)]));
    assert s4.closes[0] == 0;
  }
}
