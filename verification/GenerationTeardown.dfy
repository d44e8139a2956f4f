/** What the teardown of a generation closes: whose carriers, at the coarse grain, and which carriers
    of dead generations are left afterwards, at the fine one. */
module GenerationTeardown {
  import opened Options
  import opened Counting
  import opened Generation
  import opened GenerationPool
  import opened GenerationSafety

  // ---- whose carriers: coarse grain ----

  /** Ending and tearing down `c`, which closes everything listed, closes only what joined under it. */
  predicate ClosesOnlyOwn(s: State, c: nat) {
    c in s.controls && forall x :: x in Listed(s.box) ==> x.epoch == s.controls[c].epoch
  }

  /** With every listed carrier matching the published epoch, a teardown spares other generations
      exactly when the ending connection still owns the slot or nothing is listed. */
  lemma TeardownSparesExactly(cfg: Config, s: State, c: nat)
    requires CoarseInv(cfg.kind, s) && Matches(s) && CanDo(cfg, s, Over(c))
    ensures ClosesOnlyOwn(s, c) <==> s.box.controlConn == Some(c) || Listed(s.box) == []
  {
    OverNeedsClear(cfg, s, c);
    if Listed(s.box) != [] {
      var x := Listed(s.box)[0];
      assert x in Listed(s.box);
    }
  }

  /** Every teardown of the run closes only its own generation's carriers. */
  predicate OwnTeardowns(cfg: Config, s: State, ms: seq<Macro>)
    requires IsCoarseRun(cfg, s, ms)
    decreases |ms|
  {
    ms == [] || ((ms[0].Over? ==> ClosesOnlyOwn(s, ms[0].c)) && OwnTeardowns(cfg, Do(cfg, s, ms[0]), ms[1..]))
  }

  /** Every control loop of the run ends owning the slot, or with nothing listed. */
  predicate OwnersEnd(cfg: Config, s: State, ms: seq<Macro>)
    requires IsCoarseRun(cfg, s, ms)
    decreases |ms|
  {
    ms == [] || ((ms[0].Over? ==> s.box.controlConn == Some(ms[0].c) || Listed(s.box) == [])
                 && OwnersEnd(cfg, Do(cfg, s, ms[0]), ms[1..]))
  }

  lemma {:induction false} OwnTeardownsFrom(cfg: Config, s: State, ms: seq<Macro>)
    requires CoarseInv(cfg.kind, s) && IsCoarseRun(cfg, s, ms) && AlwaysMatches(cfg, s, ms)
    ensures OwnTeardowns(cfg, s, ms) <==> OwnersEnd(cfg, s, ms)
    decreases |ms|
  {
    hide CoarseInv, Matches, CanDo, Do, ClosesOnlyOwn;
    if ms != [] {
      CoarseKeeps(cfg, s, ms[0]);
      if ms[0].Over? {
        TeardownSparesExactly(cfg, s, ms[0].c);
      }
      OwnTeardownsFrom(cfg, Do(cfg, s, ms[0]), ms[1..]);
    }
  }

  /** Throughout a run whose publications all found the pool empty, no teardown touches another
      generation if and only if every control loop ends owning the slot or with nothing listed. */
  lemma OwnTeardownsExactly(cfg: Config, ms: seq<Macro>)
    requires cfg.kind.ReverseServer? && IsCoarseRun(cfg, INIT, ms) && CleanPublications(cfg, INIT, ms)
    ensures OwnTeardowns(cfg, INIT, ms) <==> OwnersEnd(cfg, INIT, ms)
  {
    PublishedEpochSafety(cfg, ms);
    OwnTeardownsFrom(cfg, INIT, ms);
  }

  /** Whoever runs holds the slot. */
  ghost predicate RunnerOwns(s: State) {
    forall c :: c in s.controls && s.controls[c].Running? ==> s.box.controlConn == Some(c)
  }

  lemma RunnerClosesOwn(cfg: Config, s: State, c: nat)
    requires CoarseInv(cfg.kind, s) && RunnerOwns(s) && CanDo(cfg, s, Over(c))
    ensures ClosesOnlyOwn(s, c)
  {
    OverNeedsClear(cfg, s, c);
    forall x | x in Listed(s.box)
      ensures x.epoch == s.controls[c].epoch
    {
      assert Live(s, x.epoch);
    }
  }

  lemma RunnerOwnsFrame(s: State, t: State)
    requires RunnerOwns(s) && t.controls == s.controls && t.box.controlConn == s.box.controlConn
    ensures RunnerOwns(t)
  {
  }

  lemma RunnerOwnsKept(cfg: Config, s: State, m: Macro)
    requires s.entering == map[] && RunnerOwns(s) && CanDo(cfg, s, m)
    requires m.Open? ==> s.box.controlConn == None
    ensures RunnerOwns(Do(cfg, s, m))
  {
    match m
    case Over(c) =>
      OverNeedsClear(cfg, s, c);
      OverEmptiesPool(cfg, s, c);
    case Join(p, e) => JoinSteps(cfg, s, p, e);
    case Queue(p, e) => QueueSteps(cfg, s, p, e);
    case Begin(_) => SingleStep(cfg, s, m);
    case Abort(_) => SingleStep(cfg, s, m);
    case Open(_) => SingleStep(cfg, s, m);
    case _ => FewerListed(cfg, s, m); RunnerOwnsFrame(s, Do(cfg, s, m));
  }

  lemma {:induction false} FreeSlotTeardownsFrom(cfg: Config, s: State, ms: seq<Macro>)
    requires CoarseInv(cfg.kind, s) && RunnerOwns(s) && IsCoarseRun(cfg, s, ms) && FreeSlotPublications(cfg, s, ms)
    ensures OwnTeardowns(cfg, s, ms)
    decreases |ms|
  {
    hide SlotInv, AllLive, RunnerOwns, CanDo, Do, ClosesOnlyOwn;
    if ms != [] {
      CoarseKeeps(cfg, s, ms[0]);
      RunnerOwnsKept(cfg, s, ms[0]);
      if ms[0].Over? {
        RunnerClosesOwn(cfg, s, ms[0].c);
      }
      FreeSlotTeardownsFrom(cfg, Do(cfg, s, ms[0]), ms[1..]);
    }
  }

  lemma {:induction false} SequentialTeardownsFrom(cfg: Config, s: State, ms: seq<Macro>)
    requires CoarseInv(cfg.kind, s) && OneAtATime(s) && IsCoarseRun(cfg, s, ms) && Sequential(cfg, s, ms)
    ensures OwnTeardowns(cfg, s, ms)
    decreases |ms|
  {
    assert RunnerOwns(s);
    hide SlotInv, AllLive, RunnerOwns, OneAtATime, CanDo, Do, ClosesOnlyOwn;
    if ms != [] {
      CoarseKeeps(cfg, s, ms[0]);
      OneAtATimeKept(cfg, s, ms[0]);
      if ms[0].Over? {
        RunnerClosesOwn(cfg, s, ms[0].c);
      }
      SequentialTeardownsFrom(cfg, Do(cfg, s, ms[0]), ms[1..]);
    }
  }

  /** Either is enough on every box: publishing only into a free slot, or running the control
      connections one after the other. */
  lemma NoForeignTeardown(cfg: Config, ms: seq<Macro>)
    requires IsCoarseRun(cfg, INIT, ms)
    ensures FreeSlotPublications(cfg, INIT, ms) || Sequential(cfg, INIT, ms) ==> OwnTeardowns(cfg, INIT, ms)
  {
    if FreeSlotPublications(cfg, INIT, ms) {
      FreeSlotTeardownsFrom(cfg, INIT, ms);
    } else if Sequential(cfg, INIT, ms) {
      SequentialTeardownsFrom(cfg, INIT, ms);
    }
  }

  /** Otherwise it can happen: two control connections are past the test, the first publishes, the
      second publishes over it and gets a carrier, and then the superseded one ends. The slot stays
      the successor's, whose generation lives on, but its carrier is closed. */
  lemma SupersededTeardownEmptiesSuccessor() returns (cfg: Config, s: State, ms: seq<Macro>)
    ensures cfg.kind.ReverseServer? && IsCoarseRun(cfg, INIT, ms) && CoarseExec(cfg, INIT, ms) == s
    ensures Matches(s) && CanDo(cfg, s, Over(0)) && !ClosesOnlyOwn(s, 0) && Listed(s.box) == [Carrier(7, 1)]
    ensures var t := Do(cfg, s, Over(0));
            && s.box.controlConn == t.box.controlConn == Some(1) && s.box.epoch == t.box.epoch == Some(1)
            && Live(t, 1) && Listed(t.box) == []
  {
    cfg := Config(ReverseServer, Tcp, 1);
    var two := TwoPublished(cfg, [Join(7, 1)] + []);
    s := SuccessorJoins(cfg, two);
    NextMacro(cfg, two, Join(7, 1), []);
    ms := [Begin(0)] + ([Begin(1)] + ([Open(0)] + ([Open(1)] + ([Join(7, 1)] + []))));
    hide Do, CanDo;
    OverEmptiesPool(cfg, s, 0);
    var t := Do(cfg, s, Over(0));
    assert t.controls[1] == Running(1, 1);
  }

  lemma TwoPublished(cfg: Config, rest: seq<Macro>) returns (s: State)
    requires cfg.kind.ReverseServer?
    ensures var ms := [Begin(0)] + ([Begin(1)] + ([Open(0)] + ([Open(1)] + rest)));
            && (IsCoarseRun(cfg, INIT, ms) <==> IsCoarseRun(cfg, s, rest))
            && (IsCoarseRun(cfg, s, rest) ==> CoarseExec(cfg, INIT, ms) == CoarseExec(cfg, s, rest))
    ensures s.controls == map[0 := Running(0, 0), 1 := Running(1, 1)] && s.entering == map[]
    ensures s.box == Box(Some(1), Some(1), Some(1), [], [])
  {
    var tested := TwoPastTheTest(cfg, [Open(1)] + rest);
    s := Apply(cfg, tested, Publish(1));
    CoarseFirst(cfg, tested, Open(1), Publish(1), rest);
    assert s.controls == map[0 := Running(0, 0), 1 := Running(1, 1)];
  }

  lemma SuccessorJoins(cfg: Config, s: State) returns (t: State)
    requires cfg == Config(ReverseServer, Tcp, 1) && s.entering == map[]
    requires s.box == Box(Some(1), Some(1), Some(1), [], [])
    ensures CanDo(cfg, s, Join(7, 1)) && Do(cfg, s, Join(7, 1)) == t
    ensures t == s.(box := s.box.(poolQueue := [Carrier(7, 1)]))
  {
    CanJoin(cfg, s, 7, 1);
    JoinSteps(cfg, s, 7, 1);
    t := Do(cfg, s, Join(7, 1));
    assert [] + [Carrier(7, 1)] == [Carrier(7, 1)];
  }
}
