/** Stream-slot accounting of tcpmux mode (server.go, udp.go) as a transition system: one step per
    pick, per atomic increment and per release. */
module StreamSlots {
  import opened Counting

  /** A borrower of a carrier. `Picked`: pickSession returned the session, the stream is not opened
      and counted yet. A TCP flow releases when its Pipe returns. A UDP session can be released by
      the idle reaper and is released by its reader goroutine when that ends. */
  datatype Caller = Picked(m: nat) | Tcp(m: nat, released: bool) | Udp(m: nat, reaped: bool, ended: bool)

  /** `max` is MaxStreamsPerSession, `limit` bounds the callers between pick and increment. */
  datatype Config = Config(max: nat, limit: nat)

  datatype State = State(streams: map<nat, int>, callers: map<nat, Caller>)

  const INIT := State(map[], map[])

  datatype Step =
    | Register(m: nat)
    | Pick(c: nat, m: nat) | OpenFails(c: nat) | OpenTcp(c: nat) | OpenUdp(c: nat)
    | Release(c: nat) | Reap(c: nat) | ReaderEnds(c: nat)

  // ---- who holds what ----

  function PickedOn(callers: map<nat, Caller>, m: nat): set<nat> {
    set c | c in callers && callers[c].Picked? && callers[c].m == m
  }

  function AllPicked(callers: map<nat, Caller>): set<nat> {
    set c | c in callers && callers[c].Picked?
  }

  predicate IsUnreleased(k: Caller) {
    (k.Tcp? && !k.released) || (k.Udp? && !k.reaped && !k.ended)
  }

  /** Carriers of session `m` that nobody has released. */
  function Unreleased(callers: map<nat, Caller>, m: nat): set<nat> {
    set c | c in callers && callers[c].m == m && IsUnreleased(callers[c])
  }

  /** UDP sessions on `m` that both the reaper and the reader released. */
  function ReleasedTwice(callers: map<nat, Caller>, m: nat): set<nat> {
    set c | c in callers && callers[c].m == m && callers[c].Udp? && callers[c].reaped && callers[c].ended
  }

  // ---- steps ----

  predicate Enabled(cfg: Config, s: State, step: Step) {
    match step
    case Register(m) => m !in s.streams
    case Pick(c, m) =>
      && c !in s.callers && m in s.streams && s.streams[m] < cfg.max
      && |AllPicked(s.callers)| < cfg.limit
    case OpenFails(c) => c in s.callers && s.callers[c].Picked?
    case OpenTcp(c) => c in s.callers && s.callers[c].Picked? && s.callers[c].m in s.streams
    case OpenUdp(c) => c in s.callers && s.callers[c].Picked? && s.callers[c].m in s.streams
    case Release(c) => c in s.callers && s.callers[c].Tcp? && !s.callers[c].released
                       && s.callers[c].m in s.streams
    case Reap(c) => c in s.callers && s.callers[c].Udp? && !s.callers[c].reaped && !s.callers[c].ended
                    && s.callers[c].m in s.streams
    case ReaderEnds(c) => c in s.callers && s.callers[c].Udp? && !s.callers[c].ended
                          && s.callers[c].m in s.streams
  }

  function Count(s: State, c: nat, k: Caller, delta: int): State
    requires c in s.callers && s.callers[c].m in s.streams
  {
    var m := s.callers[c].m;
    State(s.streams[m := s.streams[m] + delta], s.callers[c := k])
  }

  function Apply(cfg: Config, s: State, step: Step): State
    requires Enabled(cfg, s, step)
  {
    match step
    case Register(m) => s.(streams := s.streams[m := 0])
    case Pick(c, m) => s.(callers := s.callers[c := Picked(m)])
    case OpenFails(c) => s.(callers := s.callers - {c})
    case OpenTcp(c) => Count(s, c, Tcp(s.callers[c].m, false), 1)
    case OpenUdp(c) => Count(s, c, Udp(s.callers[c].m, false, false), 1)
    case Release(c) => Count(s, c, s.callers[c].(released := true), -1)
    case Reap(c) => Count(s, c, s.callers[c].(reaped := true), -1)
    case ReaderEnds(c) => Count(s, c, s.callers[c].(ended := true), -1)
  }

  predicate IsRun(cfg: Config, s: State, steps: seq<Step>)
    decreases |steps|
  {
    steps == [] || (Enabled(cfg, s, steps[0]) && IsRun(cfg, Apply(cfg, s, steps[0]), steps[1..]))
  }

  function Exec(cfg: Config, s: State, steps: seq<Step>): State
    requires IsRun(cfg, s, steps)
    decreases |steps|
  {
    if steps == [] then s else Exec(cfg, Apply(cfg, s, steps[0]), steps[1..])
  }

  // ---- invariant ----

  ghost predicate Balanced(s: State) {
    && (forall c :: c in s.callers ==> s.callers[c].m in s.streams)
    && (forall m :: m in s.streams ==>
          s.streams[m] == |Unreleased(s.callers, m)| - |ReleasedTwice(s.callers, m)|)
  }

  ghost predicate Bounded(cfg: Config, s: State) {
    && |AllPicked(s.callers)| <= cfg.limit
    && forall m :: m in s.streams ==> s.streams[m] + |PickedOn(s.callers, m)| <= cfg.max + cfg.limit - 1
  }

  /** How the sets of holders change when one caller becomes `k`. */
  lemma HolderChanges(callers: map<nat, Caller>, c: nat, k: Caller, m: nat)
    ensures var after := callers[c := k];
            && Unreleased(after, m) == (if k.m == m && IsUnreleased(k)
                                        then Unreleased(callers, m) + {c} else Unreleased(callers, m) - {c})
            && ReleasedTwice(after, m) == (if k.m == m && k.Udp? && k.reaped && k.ended
                                           then ReleasedTwice(callers, m) + {c} else ReleasedTwice(callers, m) - {c})
  {
  }

  /** How the sets of pickers change. */
  lemma PickerChanges(callers: map<nat, Caller>, c: nat, k: Caller, m: nat)
    ensures var after := callers[c := k];
            && PickedOn(after, m) == (if k.m == m && k.Picked?
                                      then PickedOn(callers, m) + {c} else PickedOn(callers, m) - {c})
            && AllPicked(after) == (if k.Picked? then AllPicked(callers) + {c} else AllPicked(callers) - {c})
  {
  }

  lemma CallerLeaves(callers: map<nat, Caller>, c: nat, m: nat)
    ensures var gone := callers - {c};
            && Unreleased(gone, m) == Unreleased(callers, m) - {c}
            && ReleasedTwice(gone, m) == ReleasedTwice(callers, m) - {c}
            && PickedOn(gone, m) == PickedOn(callers, m) - {c}
            && AllPicked(gone) == AllPicked(callers) - {c}
  {
  }

  /** One caller changes from `before` to `k`: each session's balance moves by what the step adds. */
  function Share(k: Caller): int {
    (if IsUnreleased(k) then 1 else 0) - (if k.Udp? && k.reaped && k.ended then 1 else 0)
  }

  lemma BalanceMoves(callers: map<nat, Caller>, c: nat, k: Caller, m: nat)
    requires c in callers && k.m == callers[c].m
    ensures var after := callers[c := k];
            |Unreleased(after, m)| - |ReleasedTwice(after, m)|
            == |Unreleased(callers, m)| - |ReleasedTwice(callers, m)|
               + (if k.m == m then Share(k) - Share(callers[c]) else 0)
  {
    HolderChanges(callers, c, k, m);
    assert c in Unreleased(callers, m) <==> k.m == m && IsUnreleased(callers[c]);
  }

  lemma BalancedCount(s: State, c: nat, k: Caller, delta: int)
    requires Balanced(s) && c in s.callers && k.m == s.callers[c].m && k.m in s.streams
    requires Share(k) == Share(s.callers[c]) + delta
    ensures Balanced(Count(s, c, k, delta))
  {
    var t := Count(s, c, k, delta);
    forall m | m in t.streams
      ensures t.streams[m] == |Unreleased(t.callers, m)| - |ReleasedTwice(t.callers, m)|
    {
      BalanceMoves(s.callers, c, k, m);
    }
  }

  lemma BalancedPick(s: State, c: nat, n: nat)
    requires Balanced(s) && c !in s.callers && n in s.streams
    ensures Balanced(s.(callers := s.callers[c := Picked(n)]))
  {
    var t := s.(callers := s.callers[c := Picked(n)]);
    forall m | m in t.streams
      ensures t.streams[m] == |Unreleased(t.callers, m)| - |ReleasedTwice(t.callers, m)|
    {
      HolderChanges(s.callers, c, Picked(n), m);
    }
  }

  lemma BalancedLeave(s: State, c: nat)
    requires Balanced(s) && c in s.callers && s.callers[c].Picked?
    ensures Balanced(s.(callers := s.callers - {c}))
  {
    var t := s.(callers := s.callers - {c});
    forall m | m in t.streams
      ensures t.streams[m] == |Unreleased(t.callers, m)| - |ReleasedTwice(t.callers, m)|
    {
      CallerLeaves(s.callers, c, m);
    }
  }

  lemma BalancedRegister(s: State, n: nat)
    requires Balanced(s) && n !in s.streams
    ensures Balanced(s.(streams := s.streams[n := 0]))
  {
    assert Unreleased(s.callers, n) == {} && ReleasedTwice(s.callers, n) == {};
  }

  lemma BalancedStep(cfg: Config, s: State, step: Step)
    requires Balanced(s) && Enabled(cfg, s, step)
    ensures Balanced(Apply(cfg, s, step))
  {
    hide Balanced;
    match step
    case Register(n) => BalancedRegister(s, n);
    case Pick(c, n) => BalancedPick(s, c, n);
    case OpenFails(c) => BalancedLeave(s, c);
    case OpenTcp(c) => BalancedCount(s, c, Tcp(s.callers[c].m, false), 1);
    case OpenUdp(c) => BalancedCount(s, c, Udp(s.callers[c].m, false, false), 1);
    case Release(c) => BalancedCount(s, c, s.callers[c].(released := true), -1);
    case Reap(c) => BalancedCount(s, c, s.callers[c].(reaped := true), -1);
    case ReaderEnds(c) => BalancedCount(s, c, s.callers[c].(ended := true), -1);
  }

  lemma BoundedPick(cfg: Config, s: State, c: nat, n: nat)
    requires Bounded(cfg, s) && Enabled(cfg, s, Pick(c, n))
    ensures Bounded(cfg, Apply(cfg, s, Pick(c, n)))
  {
    var t := Apply(cfg, s, Pick(c, n));
    PickerChanges(s.callers, c, Picked(n), n);
    forall m | m in t.streams
      ensures t.streams[m] + |PickedOn(t.callers, m)| <= cfg.max + cfg.limit - 1
    {
      if m == n {
        SubsetSize(PickedOn(t.callers, m), AllPicked(t.callers));
      } else {
        PickerChanges(s.callers, c, Picked(n), m);
        assert c !in PickedOn(s.callers, m);
      }
    }
  }

  lemma BoundedLeave(cfg: Config, s: State, c: nat)
    requires Bounded(cfg, s) && c in s.callers
    ensures Bounded(cfg, s.(callers := s.callers - {c}))
  {
    var t := s.(callers := s.callers - {c});
    CallerLeaves(s.callers, c, 0);
    SubsetSize(AllPicked(t.callers), AllPicked(s.callers));
    forall m | m in t.streams
      ensures t.streams[m] + |PickedOn(t.callers, m)| <= cfg.max + cfg.limit - 1
    {
      CallerLeaves(s.callers, c, m);
      SubsetSize(PickedOn(t.callers, m), PickedOn(s.callers, m));
    }
  }

  /** A caller that opens its stream turns a pick into a count; every other one only counts down. */
  lemma BoundedCount(cfg: Config, s: State, c: nat, k: Caller, delta: int)
    requires Bounded(cfg, s) && c in s.callers && s.callers[c].m in s.streams && !k.Picked?
    requires delta == -1 || (delta == 1 && s.callers[c].Picked?)
    ensures Bounded(cfg, Count(s, c, k, delta))
  {
    var t := Count(s, c, k, delta);
    PickerChanges(s.callers, c, k, 0);
    forall m | m in t.streams
      ensures t.streams[m] + |PickedOn(t.callers, m)| <= cfg.max + cfg.limit - 1
    {
      PickerChanges(s.callers, c, k, m);
      assert s.callers[c].Picked? && s.callers[c].m == m ==> c in PickedOn(s.callers, m);
    }
  }

  lemma BoundedRegister(cfg: Config, s: State, n: nat)
    requires cfg.limit >= 1 && Balanced(s) && Bounded(cfg, s) && n !in s.streams
    ensures Bounded(cfg, s.(streams := s.streams[n := 0]))
  {
    assert PickedOn(s.callers, n) == {};
  }

  lemma BoundedStep(cfg: Config, s: State, step: Step)
    requires cfg.limit >= 1 && Balanced(s) && Bounded(cfg, s) && Enabled(cfg, s, step)
    ensures Bounded(cfg, Apply(cfg, s, step))
  {
    hide Balanced;
    hide Bounded;
    match step
    case Register(n) => BoundedRegister(cfg, s, n);
    case Pick(c, n) => BoundedPick(cfg, s, c, n);
    case OpenFails(c) => BoundedLeave(cfg, s, c);
    case OpenTcp(c) => BoundedCount(cfg, s, c, Tcp(s.callers[c].m, false), 1);
    case OpenUdp(c) => BoundedCount(cfg, s, c, Udp(s.callers[c].m, false, false), 1);
    case Release(c) => BoundedCount(cfg, s, c, s.callers[c].(released := true), -1);
    case Reap(c) => BoundedCount(cfg, s, c, s.callers[c].(reaped := true), -1);
    case ReaderEnds(c) => BoundedCount(cfg, s, c, s.callers[c].(ended := true), -1);
  }

  lemma {:induction false} InvariantHolds(cfg: Config, s: State, steps: seq<Step>)
    requires cfg.limit >= 1 && Balanced(s) && Bounded(cfg, s) && IsRun(cfg, s, steps)
    ensures Balanced(Exec(cfg, s, steps)) && Bounded(cfg, Exec(cfg, s, steps))
    decreases |steps|
  {
    if steps != [] {
      BalancedStep(cfg, s, steps[0]);
      BoundedStep(cfg, s, steps[0]);
      InvariantHolds(cfg, Apply(cfg, s, steps[0]), steps[1..]);
    }
  }

  // ---- results ----

  /** Conservation, and exactly when it holds: in every reachable state a session's counter equals
      its unreleased carriers if and only if none of its UDP sessions was released both by the
      reaper and by its reader; each such session makes the counter one too small. */
  lemma SlotsConserved(cfg: Config, steps: seq<Step>, m: nat)
    requires cfg.limit >= 1 && IsRun(cfg, INIT, steps) && m in Exec(cfg, INIT, steps).streams
    ensures var s := Exec(cfg, INIT, steps);
            && s.streams[m] == |Unreleased(s.callers, m)| - |ReleasedTwice(s.callers, m)|
            && (s.streams[m] == |Unreleased(s.callers, m)| <==> ReleasedTwice(s.callers, m) == {})
  {
    InvariantHolds(cfg, INIT, steps);
  }

  /** Bound: with at most `limit` callers between pick and increment, no session's counter ever
      exceeds `max` by `limit` or more, and the carriers really open on it exceed that by at most one
      for every UDP session that was released twice. */
  lemma SlotsBounded(cfg: Config, steps: seq<Step>, m: nat)
    requires cfg.limit >= 1 && IsRun(cfg, INIT, steps) && m in Exec(cfg, INIT, steps).streams
    ensures var s := Exec(cfg, INIT, steps);
            && s.streams[m] <= cfg.max + cfg.limit - 1
            && |Unreleased(s.callers, m)| <= cfg.max + cfg.limit - 1 + |ReleasedTwice(s.callers, m)|
  {
    InvariantHolds(cfg, INIT, steps);
  }

  /** A reaped UDP session is always released a second time: its reader can still end, and then the
      counter has lost two for one increment. */
  lemma ReapedMeansTwice(cfg: Config, s: State, c: nat)
    requires Balanced(s) && c in s.callers && s.callers[c].Udp? && s.callers[c].reaped && !s.callers[c].ended
    ensures Enabled(cfg, s, ReaderEnds(c))
    ensures var t := Apply(cfg, s, ReaderEnds(c));
            var m := s.callers[c].m;
            && c in ReleasedTwice(t.callers, m)
            && t.streams[m] == s.streams[m] - 1
            && Unreleased(t.callers, m) == Unreleased(s.callers, m)
  {
    HolderChanges(s.callers, c, s.callers[c].(ended := true), s.callers[c].m);
  }

  function Picks(steps: seq<Step>): nat {
    if steps == [] then 0 else (if steps[0].Pick? then 1 else 0) + Picks(steps[1..])
  }

  /** Picks that came to an end: with a stream, or with none. */
  function Settled(steps: seq<Step>): nat {
    if steps == [] then 0
    else (if steps[0].OpenTcp? || steps[0].OpenUdp? || steps[0].OpenFails? then 1 else 0) + Settled(steps[1..])
  }

  lemma PicksStep(cfg: Config, s: State, step: Step)
    requires Enabled(cfg, s, step)
    ensures |AllPicked(Apply(cfg, s, step).callers)| + Settled([step]) == |AllPicked(s.callers)| + Picks([step])
    ensures step.OpenFails? ==> step.c !in Apply(cfg, s, step).callers
  {
    assert [step][1..] == [];
    match step
    case Register(_) =>
    case Pick(c, n) => PickerChanges(s.callers, c, Picked(n), n);
    case OpenFails(c) => CallerLeaves(s.callers, c, 0);
    case OpenTcp(c) => PickerChanges(s.callers, c, Tcp(s.callers[c].m, false), 0);
    case OpenUdp(c) => PickerChanges(s.callers, c, Udp(s.callers[c].m, false, false), 0);
    case Release(c) => PickerChanges(s.callers, c, s.callers[c].(released := true), 0);
    case Reap(c) => PickerChanges(s.callers, c, s.callers[c].(reaped := true), 0);
    case ReaderEnds(c) => PickerChanges(s.callers, c, s.callers[c].(ended := true), 0);
  }

  /** Over every run each pick has ended with a stream, has failed, or is still on its way. */
  lemma {:induction false} PicksAccounted(cfg: Config, s: State, steps: seq<Step>)
    requires IsRun(cfg, s, steps)
    ensures |AllPicked(Exec(cfg, s, steps).callers)| + Settled(steps) == |AllPicked(s.callers)| + Picks(steps)
    decreases |steps|
  {
    if steps != [] {
      PicksStep(cfg, s, steps[0]);
      assert [steps[0]][1..] == [];
      hide Apply, Enabled, AllPicked;
      PicksAccounted(cfg, Apply(cfg, s, steps[0]), steps[1..]);
    }
  }

  /** Over every run whoever picked a session can open a stream or fail to, and every open carrier can
      be released. */
  lemma NobodyIsStuck(cfg: Config, steps: seq<Step>, c: nat)
    requires cfg.limit >= 1 && IsRun(cfg, INIT, steps) && c in Exec(cfg, INIT, steps).callers
    ensures var s := Exec(cfg, INIT, steps);
            match s.callers[c]
            case Picked(_) => Enabled(cfg, s, OpenTcp(c)) && Enabled(cfg, s, OpenUdp(c)) && Enabled(cfg, s, OpenFails(c))
            case Tcp(_, released) => Enabled(cfg, s, Release(c)) <==> !released
            case Udp(_, reaped, ended) =>
              && (Enabled(cfg, s, ReaderEnds(c)) <==> !ended)
              && (Enabled(cfg, s, Reap(c)) <==> !ended && !reaped)
  {
    InvariantHolds(cfg, INIT, steps);
    assert Exec(cfg, INIT, steps).callers[c].m in Exec(cfg, INIT, steps).streams;
    hide Balanced, Bounded;
  }

  // ---- the bounds are attained ----

  /** On session 0: `d` UDP sessions released twice, `n` open TCP carriers, and `j` callers that have
      only picked it. */
  function Crowd(d: nat, n: nat, j: nat): (callers: map<nat, Caller>)
    ensures forall c: nat :: c in callers <==> c < d + n + j
    ensures forall c :: c in callers ==>
              (callers[c] == if c < d then Udp(0, true, true) else if c < d + n then Tcp(0, false) else Picked(0))
    decreases d + n + j
  {
    if j > 0 then Crowd(d, n, j - 1)[d + n + j - 1 := Picked(0)]
    else if n > 0 then Crowd(d, n - 1, 0)[d + n - 1 := Tcp(0, false)]
    else if d > 0 then Crowd(d - 1, 0, 0)[d - 1 := Udp(0, true, true)]
    else map[]
  }

  function UpTo(from: nat, n: nat): (r: set<nat>)
    ensures |r| == n && forall c: nat :: c in r <==> from <= c < from + n
  {
    if n == 0 then {} else UpTo(from, n - 1) + {from + n - 1}
  }

  lemma SameMembers(a: set<nat>, b: set<nat>)
    requires forall c: nat :: c in a <==> c in b
    ensures a == b
  {
  }

  lemma CrowdPicked(d: nat, n: nat, j: nat)
    ensures |AllPicked(Crowd(d, n, j))| == j
  {
    SameMembers(AllPicked(Crowd(d, n, j)), UpTo(d + n, j));
  }

  lemma CrowdUnreleased(d: nat, n: nat, j: nat)
    ensures |Unreleased(Crowd(d, n, j), 0)| == n
  {
    SameMembers(Unreleased(Crowd(d, n, j), 0), UpTo(d, n));
  }

  lemma CrowdReleasedTwice(d: nat, n: nat, j: nat)
    ensures |ReleasedTwice(Crowd(d, n, j), 0)| == d
  {
    SameMembers(ReleasedTwice(Crowd(d, n, j), 0), UpTo(0, d));
  }

  function At(d: nat, n: nat, j: nat): State { State(map[0 := n - d], Crowd(d, n, j)) }

  lemma PickAt(cfg: Config, d: nat, n: nat, j: nat)
    requires n < cfg.max + d && j < cfg.limit
    ensures Enabled(cfg, At(d, n, j), Pick(d + n + j, 0))
    ensures Apply(cfg, At(d, n, j), Pick(d + n + j, 0)) == At(d, n, j + 1)
  {
    CrowdPicked(d, n, j);
  }

  lemma OpenAt(cfg: Config, d: nat, n: nat, j: nat)
    requires j > 0
    ensures Enabled(cfg, At(d, n, j), OpenTcp(d + n))
    ensures Apply(cfg, At(d, n, j), OpenTcp(d + n)) == At(d, n + 1, j - 1)
  {
    assert Crowd(d, n, j)[d + n := Tcp(0, false)] == Crowd(d, n + 1, j - 1);
    assert At(d, n, j).streams[0 := n - d + 1] == At(d, n + 1, j - 1).streams;
  }

  lemma Prefixed(cfg: Config, s: State, step: Step, rest: seq<Step>)
    requires Enabled(cfg, s, step) && IsRun(cfg, Apply(cfg, s, step), rest)
    ensures IsRun(cfg, s, [step] + rest)
    ensures Exec(cfg, s, [step] + rest) == Exec(cfg, Apply(cfg, s, step), rest)
  {
    assert ([step] + rest)[1..] == rest;
  }

  /** One more caller, number `d`, that has added `delta` to the counter. */
  function Plus(d: nat, k: Caller, delta: int): State { State(map[0 := delta - d], Crowd(d, 0, 0)[d := k]) }

  lemma PlusPicks(cfg: Config, d: nat)
    requires cfg.max >= 1 && cfg.limit >= 1
    ensures Enabled(cfg, At(d, 0, 0), Pick(d, 0))
    ensures Apply(cfg, At(d, 0, 0), Pick(d, 0)) == Plus(d, Picked(0), 0)
  {
    CrowdPicked(d, 0, 0);
  }

  lemma PlusOpens(cfg: Config, d: nat)
    ensures Enabled(cfg, Plus(d, Picked(0), 0), OpenUdp(d))
    ensures Apply(cfg, Plus(d, Picked(0), 0), OpenUdp(d)) == Plus(d, Udp(0, false, false), 1)
  {
  }

  lemma PlusReaped(cfg: Config, d: nat)
    ensures Enabled(cfg, Plus(d, Udp(0, false, false), 1), Reap(d))
    ensures Apply(cfg, Plus(d, Udp(0, false, false), 1), Reap(d)) == Plus(d, Udp(0, true, false), 0)
  {
  }

  lemma PlusEnds(cfg: Config, d: nat)
    ensures Enabled(cfg, Plus(d, Udp(0, true, false), 0), ReaderEnds(d))
    ensures Apply(cfg, Plus(d, Udp(0, true, false), 0), ReaderEnds(d)) == At(d + 1, 0, 0)
  {
    assert Crowd(d, 0, 0)[d := Udp(0, true, true)] == Crowd(d + 1, 0, 0);
  }

  /** One more UDP session comes, is reaped, and its reader ends. */
  lemma DoubleAt(cfg: Config, d: nat, rest: seq<Step>) returns (steps: seq<Step>)
    requires cfg.max >= 1 && cfg.limit >= 1 && IsRun(cfg, At(d + 1, 0, 0), rest)
    ensures IsRun(cfg, At(d, 0, 0), steps)
    ensures Exec(cfg, At(d, 0, 0), steps) == Exec(cfg, At(d + 1, 0, 0), rest)
  {
    hide At, Plus, Apply, Enabled, IsRun, Exec;
    PlusPicks(cfg, d);
    PlusOpens(cfg, d);
    PlusReaped(cfg, d);
    PlusEnds(cfg, d);
    Prefixed(cfg, Plus(d, Udp(0, true, false), 0), ReaderEnds(d), rest);
    Prefixed(cfg, Plus(d, Udp(0, false, false), 1), Reap(d), [ReaderEnds(d)] + rest);
    Prefixed(cfg, Plus(d, Picked(0), 0), OpenUdp(d), [Reap(d)] + ([ReaderEnds(d)] + rest));
    Prefixed(cfg, At(d, 0, 0), Pick(d, 0), [OpenUdp(d)] + ([Reap(d)] + ([ReaderEnds(d)] + rest)));
    steps := [Pick(d, 0)] + ([OpenUdp(d)] + ([Reap(d)] + ([ReaderEnds(d)] + rest)));
  }

  lemma {:induction false} DoubleOneByOne(cfg: Config, d: nat, k: nat, rest: seq<Step>) returns (steps: seq<Step>)
    requires cfg.max >= 1 && cfg.limit >= 1 && IsRun(cfg, At(d + k, 0, 0), rest)
    ensures IsRun(cfg, At(d, 0, 0), steps)
    ensures Exec(cfg, At(d, 0, 0), steps) == Exec(cfg, At(d + k, 0, 0), rest)
    decreases k
  {
    hide At, IsRun, Exec;
    if k == 0 {
      steps := rest;
    } else {
      var later := DoubleOneByOne(cfg, d + 1, k - 1, rest);
      steps := DoubleAt(cfg, d, later);
    }
  }

  /** `k` carriers one after the other, each picked and opened while there is room. */
  lemma {:induction false} FillOneByOne(cfg: Config, d: nat, n: nat, k: nat, rest: seq<Step>)
    returns (steps: seq<Step>)
    requires cfg.limit >= 1 && n + k < cfg.max + d && IsRun(cfg, At(d, n + k, 0), rest)
    ensures IsRun(cfg, At(d, n, 0), steps)
    ensures Exec(cfg, At(d, n, 0), steps) == Exec(cfg, At(d, n + k, 0), rest)
    decreases k
  {
    hide At, Apply, Enabled;
    if k == 0 {
      steps := rest;
    } else {
      var later := FillOneByOne(cfg, d, n + 1, k - 1, rest);
      PickAt(cfg, d, n, 0);
      OpenAt(cfg, d, n, 1);
      Prefixed(cfg, At(d, n, 1), OpenTcp(d + n), later);
      Prefixed(cfg, At(d, n, 0), Pick(d + n, 0), [OpenTcp(d + n)] + later);
      steps := [Pick(d + n, 0)] + ([OpenTcp(d + n)] + later);
    }
  }

  lemma {:induction false} AllPick(cfg: Config, d: nat, n: nat, j: nat, k: nat, rest: seq<Step>)
    returns (steps: seq<Step>)
    requires n < cfg.max + d && j + k <= cfg.limit && IsRun(cfg, At(d, n, j + k), rest)
    ensures IsRun(cfg, At(d, n, j), steps)
    ensures Exec(cfg, At(d, n, j), steps) == Exec(cfg, At(d, n, j + k), rest)
    decreases k
  {
    hide At, Apply, Enabled;
    if k == 0 {
      steps := rest;
    } else {
      var later := AllPick(cfg, d, n, j + 1, k - 1, rest);
      PickAt(cfg, d, n, j);
      Prefixed(cfg, At(d, n, j), Pick(d + n + j, 0), later);
      steps := [Pick(d + n + j, 0)] + later;
    }
  }

  lemma {:induction false} AllOpen(cfg: Config, d: nat, n: nat, j: nat) returns (steps: seq<Step>)
    ensures IsRun(cfg, At(d, n, j), steps) && Exec(cfg, At(d, n, j), steps) == At(d, n + j, 0)
    decreases j
  {
    hide At, Apply, Enabled;
    if j == 0 {
      steps := [];
    } else {
      OpenAt(cfg, d, n, j);
      var later := AllOpen(cfg, d, n + 1, j - 1);
      Prefixed(cfg, At(d, n, j), OpenTcp(d + n), later);
      steps := [OpenTcp(d + n)] + later;
    }
  }

  /** Both bounds are exact: for every cap, every number of concurrent callers and every number `d` of
      doubly released UDP sessions some run reaches them. From one such session on, more carriers are
      open than the cap and the callers in between account for. */
  lemma SlotBoundAttained(cfg: Config, d: nat) returns (steps: seq<Step>)
    requires cfg.max >= 1 && cfg.limit >= 1
    ensures IsRun(cfg, INIT, steps) && 0 in Exec(cfg, INIT, steps).streams
    ensures var s := Exec(cfg, INIT, steps);
            && s.streams[0] == cfg.max + cfg.limit - 1
            && |ReleasedTwice(s.callers, 0)| == d
            && |Unreleased(s.callers, 0)| == cfg.max + cfg.limit - 1 + d
  {
    hide At, Apply, Enabled, Crowd, Unreleased, ReleasedTwice;
    var n := cfg.max - 1 + d;
    var opens := AllOpen(cfg, d, n, cfg.limit);
    var picks := AllPick(cfg, d, n, 0, cfg.limit, opens);
    var fill := FillOneByOne(cfg, d, 0, n, picks);
    var doubles := DoubleOneByOne(cfg, 0, d, fill);
    Registered(cfg);
    Prefixed(cfg, INIT, Register(0), doubles);
    steps := [Register(0)] + doubles;
    FullUp(cfg, d);
  }

  lemma Registered(cfg: Config)
    ensures Enabled(cfg, INIT, Register(0)) && Apply(cfg, INIT, Register(0)) == At(0, 0, 0)
  {
  }

  lemma FullUp(cfg: Config, d: nat)
    requires cfg.max >= 1
    ensures var s := At(d, cfg.max - 1 + d + cfg.limit, 0);
            && 0 in s.streams && s.streams[0] == cfg.max + cfg.limit - 1
            && |ReleasedTwice(s.callers, 0)| == d
            && |Unreleased(s.callers, 0)| == cfg.max + cfg.limit - 1 + d
  {
    hide Crowd, Unreleased, ReleasedTwice;
    CrowdUnreleased(d, cfg.max - 1 + d + cfg.limit, 0);
    CrowdReleasedTwice(d, cfg.max - 1 + d + cfg.limit, 0);
  }

  /** Two releases of one UDP session take the counter below zero with nothing in use. */
  lemma DoubleReleaseGoesNegative(cfg: Config) returns (steps: seq<Step>)
    requires cfg.max >= 1 && cfg.limit >= 1
    ensures IsRun(cfg, INIT, steps) && 0 in Exec(cfg, INIT, steps).streams
    ensures Exec(cfg, INIT, steps).streams[0] == -1
  {
    var s1 := Apply(cfg, INIT, Register(0));
    assert AllPicked(s1.callers) == {};
    var s2 := Apply(cfg, s1, Pick(7, 0));
    var s3 := Apply(cfg, s2, OpenUdp(7));
    var s4 := Apply(cfg, s3, Reap(7));
    Prefixed(cfg, s4, ReaderEnds(7), []);
    Prefixed(cfg, s3, Reap(7), [ReaderEnds(7)] + []);
    Prefixed(cfg, s2, OpenUdp(7), [Reap(7)] + ([ReaderEnds(7)] + []));
    Prefixed(cfg, s1, Pick(7, 0), [OpenUdp(7)] + ([Reap(7)] + ([ReaderEnds(7)] + [])));
    steps := [Register(0)] + ([Pick(7, 0)] + ([OpenUdp(7)] + ([Reap(7)] + ([ReaderEnds(7)] + []))));
    Prefixed(cfg, INIT, Register(0), steps[1..]);
  }
}
