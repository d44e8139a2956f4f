/** Which disguise profile is dialed next, at which of its addresses and after how long a wait
    (profiles.go, util.go, and the two dial loops in client.go and direct.go). Times are nanoseconds
    of one monotone clock. */
module Failover {
  import opened Counting
  import opened Options

  const SECOND := 1_000_000_000
  const SHORT_LIVED := 20 * SECOND
  const MAX_COOLDOWN := 180 * SECOND

  /** `cooldownUntil` is None for the zero time. `backups` is the number of backup addresses. */
  datatype Profile = Profile(failCount: nat, cooldownUntil: Option<nat>, addrIdx: nat, backups: nat)

  function NewProfile(backups: nat): Profile { Profile(0, None, 0, backups) }

  /** How an attempt ended: degraded, or otherwise, with whether the handshake ever completed and how
      long it lived. */
  datatype Outcome = Degraded | Ended(established: bool, lived: nat)

  /** A connection that was established and lived twenty seconds. */
  predicate Lasted(o: Outcome) { o.Ended? && o.established && o.lived >= 20 * 1_000_000_000 }

  predicate Succeeded(o: Outcome) { o.Ended? && o.established && o.lived >= SHORT_LIVED }

  function Cooldown(failCount: nat): nat {
    if failCount * 5 * SECOND > MAX_COOLDOWN then MAX_COOLDOWN else failCount * 5 * SECOND
  }

  function Failed(p: Profile, escalate: bool, now: nat): Profile {
    var count := p.failCount + if escalate then 3 else 1;
    p.(failCount := count, cooldownUntil := Some(now + Cooldown(count)))
  }

  function Rotated(p: Profile): Profile {
    if p.backups == 0 then p else p.(addrIdx := (p.addrIdx + 1) % (p.backups + 1))
  }

  /** What the end of an attempt does to the profile it used. */
  function After(p: Profile, o: Outcome, now: nat): Profile {
    match o
    case Degraded => Rotated(Failed(p, false, now))
    case Ended(established, lived) =>
      if established && lived >= SHORT_LIVED then p.(failCount := 0, cooldownUntil := None)
      else Rotated(Failed(p, established, now))
  }

  /** Whether `time.Now().After(p.cooldownUntil)` is false. */
  predicate Cooling(p: Profile, now: nat) {
    p.cooldownUntil.Some? && now <= p.cooldownUntil.value
  }

  // ---- the objects ----

  class ProfileState {
    const addresses: seq<string> // the primary and then the backups
    var failCount: nat
    var cooldownUntil: Option<nat>
    var addrIdx: nat

    constructor (primary: string, backups: seq<string>)
      ensures addresses == [primary] + backups && Value() == NewProfile(|backups|)
    {
      addresses := [primary] + backups;
      failCount, cooldownUntil, addrIdx := 0, None, 0;
    }

    function Value(): Profile
      requires addresses != []
      reads this
    {
      Profile(failCount, cooldownUntil, addrIdx, |addresses| - 1)
    }

    /** The address in use; the fallback to the primary for an index out of range is never taken
        by a profile whose index is in range. */
    function Addr(): (a: string)
      requires addresses != []
      reads this
      ensures addrIdx < |addresses| ==> a == addresses[addrIdx]
    {
      if addrIdx == 0 || addrIdx - 1 >= |addresses| - 1 then addresses[0] else addresses[addrIdx]
    }

    method RotateAddr()
      requires addresses != []
      modifies this`addrIdx
      ensures Value() == Rotated(old(Value()))
    {
      if |addresses| - 1 == 0 {
        return;
      }
      addrIdx := (addrIdx + 1) % |addresses|;
    }

    method OnFailure(escalate: bool, now: nat)
      requires addresses != []
      modifies this`failCount, this`cooldownUntil
      ensures Value() == Failed(old(Value()), escalate, now)
    {
      if escalate {
        failCount := failCount + 3;
      } else {
        failCount := failCount + 1;
      }
      var d := failCount * 5 * SECOND;
      if d > MAX_COOLDOWN {
        d := MAX_COOLDOWN;
      }
      cooldownUntil := Some(now + d);
    }

    method OnSuccess()
      requires addresses != []
      modifies this`failCount, this`cooldownUntil
      ensures Value() == old(Value()).(failCount := 0, cooldownUntil := None)
    {
      failCount := 0;
      cooldownUntil := None;
    }

    /** The switch of Client.Run. */
    method AfterClientAttempt(o: Outcome, now: nat) returns (resetBackoff: bool)
      requires addresses != []
      modifies this
      ensures Value() == After(old(Value()), o, now)
      ensures resetBackoff <==> Lasted(o)
    {
      resetBackoff := false;
      if o.Degraded? {
        OnFailure(false, now);
        RotateAddr();
      } else if o.established && o.lived >= SHORT_LIVED {
        OnSuccess();
        resetBackoff := true;
      } else if o.established {
        OnFailure(true, now);
        RotateAddr();
      } else {
        OnFailure(false, now);
        RotateAddr();
      }
    }

    /** The switch of Server.runDialer: the same transition for the same outcome. */
    method AfterServerAttempt(o: Outcome, now: nat) returns (resetBackoff: bool)
      requires addresses != []
      modifies this
      ensures Value() == After(old(Value()), o, now)
      ensures resetBackoff <==> Lasted(o)
    {
      resetBackoff := false;
      match o
      case Degraded =>
        OnFailure(false, now);
        RotateAddr();
      case Ended(established, lived) =>
        if established && lived >= SHORT_LIVED {
          OnSuccess();
          resetBackoff := true;
          return;
        }
        OnFailure(established, now);
        RotateAddr();
    }
  }

  /** The search of pickProfile: the first profile not cooling down, or the first of all. */
  method PickProfile(profiles: seq<Profile>, now: nat) returns (j: nat)
    requires profiles != []
    ensures j == Pick(profiles, now)
    ensures j < |profiles|
    ensures forall k :: 0 <= k < j ==> Cooling(profiles[k], now)
    ensures Cooling(profiles[j], now) ==> j == 0 && forall k :: 0 <= k < |profiles| ==> Cooling(profiles[k], now)
  {
    j := 0;
    while j < |profiles|
      invariant j <= |profiles|
      invariant forall k :: 0 <= k < j ==> Cooling(profiles[k], now)
    {
      if !Cooling(profiles[j], now) {
        PickIs(profiles, now, j);
        return;
      }
      j := j + 1;
    }
    PickIs(profiles, now, |profiles|);
    j := 0;
  }

  function FirstReady(profiles: seq<Profile>, now: nat): (j: nat)
    ensures j <= |profiles|
    ensures j < |profiles| ==> !Cooling(profiles[j], now)
    ensures forall k :: 0 <= k < j ==> Cooling(profiles[k], now)
  {
    if profiles == [] || !Cooling(profiles[0], now) then 0 else 1 + FirstReady(profiles[1..], now)
  }

  function Pick(profiles: seq<Profile>, now: nat): (j: nat)
    requires profiles != []
    ensures j < |profiles|
  {
    var j := FirstReady(profiles, now);
    if j < |profiles| then j else 0
  }

  lemma {:induction false} PickIs(profiles: seq<Profile>, now: nat, j: nat)
    requires j <= |profiles|
    requires forall k :: 0 <= k < j ==> Cooling(profiles[k], now)
    requires j < |profiles| ==> !Cooling(profiles[j], now)
    ensures FirstReady(profiles, now) == j
    decreases j
  {
    if j > 0 {
      PickIs(profiles[1..], now, j - 1);
    }
  }

  // ---- whole runs ----

  /** One turn of the dial loop: when the profile was picked, how it ended and when. */
  datatype Attempt = Attempt(start: nat, outcome: Outcome, end: nat)

  ghost predicate Timely(run: seq<Attempt>) {
    && (forall i :: 0 <= i < |run| ==> run[i].start <= run[i].end)
    && (forall i, j :: 0 <= i < j < |run| ==> run[i].end <= run[j].start)
  }

  /** All profiles after a run that starts with none of them tried. `backups` lists how many backup
      addresses each one has. */
  function Profiles(backups: seq<nat>, run: seq<Attempt>): (ps: seq<Profile>)
    requires backups != []
    ensures |ps| == |backups|
    decreases |run|
  {
    if run == [] then seq(|backups|, i requires 0 <= i < |backups| => NewProfile(backups[i]))
    else
      var before, last := run[..|run| - 1], run[|run| - 1];
      var ps := Profiles(backups, before);
      var j := Pick(ps, last.start);
      ps[j := After(ps[j], last.outcome, last.end)]
  }

  /** The profile attempt `i` of the run uses. */
  function Chosen(backups: seq<nat>, run: seq<Attempt>, i: nat): (j: nat)
    requires backups != [] && i < |run|
    ensures j < |backups|
  {
    Pick(Profiles(backups, run[..i]), run[i].start)
  }

  lemma ProfilesStep(backups: seq<nat>, run: seq<Attempt>, i: nat, k: nat)
    requires backups != [] && i < |run| && k < |backups|
    ensures Profiles(backups, run[..i + 1])[k]
            == if Chosen(backups, run, i) == k
               then After(Profiles(backups, run[..i])[k], run[i].outcome, run[i].end)
               else Profiles(backups, run[..i])[k]
  {
    assert run[..i + 1][..i] == run[..i];
  }

  lemma FreshProfile(backups: seq<nat>, run: seq<Attempt>, k: nat)
    requires backups != [] && k < |backups|
    ensures Profiles(backups, run[..0])[k] == NewProfile(backups[k])
  {
    assert run[..0] == [];
  }

  /** What the end of an attempt does to the cooldown. */
  lemma AfterCooldown(p: Profile, o: Outcome, now: nat)
    ensures Succeeded(o) ==> After(p, o, now).cooldownUntil == None
    ensures !Succeeded(o) ==>
              var q := After(p, o, now);
              && q.cooldownUntil.Some? && q.failCount > 0
              && now + 5 * SECOND <= q.cooldownUntil.value <= now + MAX_COOLDOWN
  {
  }

  /** What it does to the address index. */
  lemma AfterAddress(p: Profile, o: Outcome, now: nat)
    requires p.addrIdx <= p.backups
    ensures var q := After(p, o, now);
            && q.backups == p.backups
            && q.addrIdx == (if Succeeded(o) then p.addrIdx else (p.addrIdx + 1) % (p.backups + 1))
  {
  }

  /** Attempt `i` is the latest of the first `n` that used profile `k`. */
  ghost predicate LatestUse(backups: seq<nat>, run: seq<Attempt>, n: nat, k: nat, i: nat)
    requires backups != [] && n <= |run|
  {
    && i < n && Chosen(backups, run, i) == k
    && forall l :: i < l < n ==> Chosen(backups, run, l) != k
  }

  /** A profile is cooling down only because its latest attempt failed, and the cooldown ends five
      seconds to three minutes after that failure. */
  lemma {:induction false} CooldownMeaning(backups: seq<nat>, run: seq<Attempt>, n: nat, k: nat)
    returns (i: nat)
    requires backups != [] && n <= |run| && k < |backups|
    ensures var p := Profiles(backups, run[..n])[k];
            p.cooldownUntil.Some? ==>
              && LatestUse(backups, run, n, k, i) && !Succeeded(run[i].outcome)
              && run[i].end + 5 * SECOND <= p.cooldownUntil.value <= run[i].end + MAX_COOLDOWN
              && p.failCount > 0
    ensures Profiles(backups, run[..n])[k].cooldownUntil == None ==>
              (forall l :: 0 <= l < n ==> Chosen(backups, run, l) != k)
              || (LatestUse(backups, run, n, k, i) && Succeeded(run[i].outcome))
    decreases n
  {
    hide Profiles;
    hide Chosen;
    hide After;
    i := 0;
    if n == 0 {
      FreshProfile(backups, run, k);
    } else {
      var last := n - 1;
      ProfilesStep(backups, run, last, k);
      AfterCooldown(Profiles(backups, run[..last])[k], run[last].outcome, run[last].end);
      i := CooldownMeaning(backups, run, last, k);
      if Chosen(backups, run, last) == k {
        i := last;
      }
    }
  }

  /** What profile `k` has against it after the first `n` attempts: since one of its connections
      lasted, three for every connection that was established and died sooner, one for every other
      failure. Read off the attempts alone. */
  function Strikes(backups: seq<nat>, run: seq<Attempt>, n: nat, k: nat): nat
    requires backups != [] && n <= |run|
    decreases n
  {
    if n == 0 then 0
    else
      var o, before := run[n - 1].outcome, Strikes(backups, run, n - 1, k);
      if Chosen(backups, run, n - 1) != k then before
      else if Lasted(o) then 0
      else before + if o.Ended? && o.established then 3 else 1
  }

  lemma AfterFails(p: Profile, o: Outcome, now: nat)
    ensures var q := After(p, o, now);
            if Lasted(o) then q.failCount == 0 && q.cooldownUntil == None
            else
              && q.failCount == p.failCount + (if o.Ended? && o.established then 3 else 1)
              && q.cooldownUntil == Some(now + if 5 * q.failCount >= 180 then 180 * 1_000_000_000
                                               else 5 * q.failCount * 1_000_000_000)
  {
  }

  /** How long a profile cools, over whole runs: from its latest failure for five seconds a strike, three
      minutes at most. */
  lemma {:induction false} CooldownExactly(backups: seq<nat>, run: seq<Attempt>, n: nat, k: nat) returns (i: nat)
    requires backups != [] && n <= |run| && k < |backups|
    ensures Profiles(backups, run[..n])[k].failCount == Strikes(backups, run, n, k)
    ensures var until := Profiles(backups, run[..n])[k].cooldownUntil;
            var w := Strikes(backups, run, n, k);
            if w == 0 then until == None
            else
              && LatestUse(backups, run, n, k, i) && !Lasted(run[i].outcome)
              && until == Some(run[i].end + if 5 * w >= 180 then 180 * 1_000_000_000 else 5 * w * 1_000_000_000)
    decreases n
  {
    hide Profiles;
    hide Chosen;
    hide After;
    i := 0;
    if n == 0 {
      FreshProfile(backups, run, k);
    } else {
      var last := n - 1;
      ProfilesStep(backups, run, last, k);
      AfterFails(Profiles(backups, run[..last])[k], run[last].outcome, run[last].end);
      i := CooldownExactly(backups, run, last, k);
      if Chosen(backups, run, last) == k {
        i := last;
      }
    }
  }

  /** Failover over whole runs: whenever a profile is chosen, every profile preferred to it failed in
      its latest attempt, at most 180 seconds ago. */
  lemma PreferredOnesFailedRecently(backups: seq<nat>, run: seq<Attempt>, i: nat, k: nat)
    returns (failure: nat)
    requires backups != [] && Timely(run) && i < |run| && k < Chosen(backups, run, i)
    ensures LatestUse(backups, run, i, k, failure) && !Succeeded(run[failure].outcome)
    ensures run[failure].end <= run[i].start <= run[failure].end + MAX_COOLDOWN
  {
    failure := CooldownMeaning(backups, run, i, k);
    assert Cooling(Profiles(backups, run[..i])[k], run[i].start);
  }

  /** Hence a profile whose latest failure is more than 180 seconds old, or that last succeeded or
      was never tried, is chosen unless a preferred one is; the first profile always is. */
  lemma RetriedAfterCooldown(backups: seq<nat>, run: seq<Attempt>, i: nat, k: nat)
    requires backups != [] && Timely(run) && i < |run| && k < |backups|
    requires forall l :: 0 <= l < i && Chosen(backups, run, l) == k && !Succeeded(run[l].outcome)
               ==> run[i].start > run[l].end + MAX_COOLDOWN
    ensures Chosen(backups, run, i) <= k
  {
    if k < Chosen(backups, run, i) {
      var failure := PreferredOnesFailedRecently(backups, run, i, k);
      assert false;
    }
  }

  /** A profile that failed less than five seconds ago is not tried again, unless it is the first
      one and every profile is cooling down. */
  lemma NotRetriedAtOnce(backups: seq<nat>, run: seq<Attempt>, l: nat, i: nat)
    requires backups != [] && Timely(run) && l < i < |run|
    requires Chosen(backups, run, l) == Chosen(backups, run, i) && !Succeeded(run[l].outcome)
    requires forall m :: l < m < i ==> Chosen(backups, run, m) != Chosen(backups, run, i)
    requires run[i].start <= run[l].end + 5 * SECOND
    ensures Chosen(backups, run, i) == 0
    ensures forall k :: 0 <= k < |backups| ==> Cooling(Profiles(backups, run[..i])[k], run[i].start)
  {
    var j := Chosen(backups, run, i);
    var ps := Profiles(backups, run[..i]);
    var use := CooldownMeaning(backups, run, i, j);
    assert ps[j].cooldownUntil == None ==> use == l;
    assert use == l;
    assert Cooling(ps[j], run[i].start);
    assert FirstReady(ps, run[i].start) == |ps|;
  }

  // ---- addresses ----

  /** Failed attempts of profile `k` among the first `n`. */
  function Failures(backups: seq<nat>, run: seq<Attempt>, n: nat, k: nat): (f: nat)
    requires backups != [] && n <= |run|
    decreases n
  {
    if n == 0 then 0
    else Failures(backups, run, n - 1, k)
         + if Chosen(backups, run, n - 1) == k && !Succeeded(run[n - 1].outcome) then 1 else 0
  }

  lemma NextModulo(f: nat, b: nat)
    ensures (f % (b + 1) + 1) % (b + 1) == (f + 1) % (b + 1)
  {
    var d := b + 1;
    var q, r := f / d, f % d;
    assert f == q * d + r;
    if r + 1 == d {
      assert (q + 1) * d == q * d + d;
      DivIs(f + 1, d, q + 1, 0);
    } else {
      DivIs(f + 1, d, q, r + 1);
    }
  }

  /** The address index is the number of failures modulo the number of addresses, so the lookup is
      always in range. */
  lemma {:induction false} AddressCountsFailures(backups: seq<nat>, run: seq<Attempt>, n: nat, k: nat)
    requires backups != [] && n <= |run| && k < |backups|
    ensures var p := Profiles(backups, run[..n])[k];
            && p.backups == backups[k]
            && p.addrIdx == Failures(backups, run, n, k) % (backups[k] + 1)
            && p.addrIdx <= backups[k]
    decreases n
  {
    hide Profiles;
    hide Chosen;
    hide After;
    if n == 0 {
      FreshProfile(backups, run, k);
    } else {
      ProfilesStep(backups, run, n - 1, k);
      AddressCountsFailures(backups, run, n - 1, k);
      AfterAddress(Profiles(backups, run[..n - 1])[k], run[n - 1].outcome, run[n - 1].end);
      NextModulo(Failures(backups, run, n - 1, k), backups[k]);
    }
  }

  /** The address tried after `turn` further failures. */
  function AddressAt(f: nat, b: nat, turn: nat): nat { (f + turn) % (b + 1) }

  lemma AddressAtIs(f: nat, b: nat, turn: nat)
    requires turn <= b
    ensures var r := f % (b + 1);
            AddressAt(f, b, turn) == if r + turn <= b then r + turn else r + turn - (b + 1)
  {
    var d := b + 1;
    var q, r := f / d, f % d;
    assert f == q * d + r;
    if r + turn < d {
      DivIs(f + turn, d, q, r + turn);
    } else {
      assert (q + 1) * d == q * d + d;
      DivIs(f + turn, d, q + 1, r + turn - d);
    }
  }

  lemma TurnOf(f: nat, b: nat, address: nat) returns (turn: nat)
    requires address <= b
    ensures turn <= b && AddressAt(f, b, turn) == address
    ensures forall other: nat :: other <= b && AddressAt(f, b, other) == address ==> other == turn
  {
    hide AddressAt;
    var r := f % (b + 1);
    turn := if address >= r then address - r else address + b + 1 - r;
    AddressAtIs(f, b, turn);
    forall other: nat | other <= b && AddressAt(f, b, other) == address
      ensures other == turn
    {
      AddressAtIs(f, b, other);
    }
  }

  /** `uses` are successive attempts of the run with profile `k`, all of them failures; attempts with
      other profiles may lie between them. */
  ghost predicate FailsInARow(backups: seq<nat>, run: seq<Attempt>, k: nat, uses: seq<nat>)
    requires backups != []
  {
    && (forall t :: 0 <= t < |uses| ==>
          uses[t] < |run| && Chosen(backups, run, uses[t]) == k && !Succeeded(run[uses[t]].outcome))
    && (forall t :: 0 <= t < |uses| - 1 ==> uses[t] < uses[t + 1])
    && (forall t, i :: 0 <= t < |uses| - 1 && uses[t] < i < uses[t + 1] ==> Chosen(backups, run, i) != k)
  }

  lemma {:induction false} NoFailureBetween(backups: seq<nat>, run: seq<Attempt>, k: nat, use: nat, n: nat)
    requires backups != [] && use < n <= |run|
    requires Chosen(backups, run, use) == k && !Succeeded(run[use].outcome)
    requires forall i :: use < i < n ==> Chosen(backups, run, i) != k
    ensures Failures(backups, run, n, k) == Failures(backups, run, use, k) + 1
    decreases n
  {
    hide Chosen;
    if use + 1 < n {
      NoFailureBetween(backups, run, k, use, n - 1);
    }
  }

  lemma {:induction false} FailuresAtUse(backups: seq<nat>, run: seq<Attempt>, k: nat, uses: seq<nat>, t: nat)
    requires backups != [] && FailsInARow(backups, run, k, uses) && t < |uses|
    ensures Failures(backups, run, uses[t], k) == Failures(backups, run, uses[0], k) + t
  {
    hide Chosen;
    if t > 0 {
      FailuresAtUse(backups, run, k, uses, t - 1);
      NoFailureBetween(backups, run, k, uses[t - 1], uses[t]);
    }
  }

  /** The address index of profile `k` when attempt `i` of the run starts. */
  function AddressOf(backups: seq<nat>, run: seq<Attempt>, k: nat, i: nat): nat
    requires backups != [] && i <= |run| && k < |backups|
  {
    Profiles(backups, run[..i])[k].addrIdx
  }

  /** In any run, B + 1 successive uses of a profile with B backups that all fail try every one of
      its addresses, each exactly once. */
  lemma EveryAddressOnce(backups: seq<nat>, run: seq<Attempt>, k: nat, uses: seq<nat>, address: nat)
    returns (turn: nat)
    requires backups != [] && k < |backups| && FailsInARow(backups, run, k, uses)
    requires |uses| == backups[k] + 1 && address <= backups[k]
    ensures turn < |uses| && AddressOf(backups, run, k, uses[turn]) == address
    ensures forall other :: 0 <= other < |uses| && AddressOf(backups, run, k, uses[other]) == address
              ==> other == turn
    ensures forall other :: 0 <= other < |uses| ==> AddressOf(backups, run, k, uses[other]) <= backups[k]
  {
    hide Failures, Profiles, Chosen;
    var f, b := Failures(backups, run, uses[0], k), backups[k];
    turn := TurnOf(f, b, address);
    forall t | 0 <= t < |uses|
      ensures AddressOf(backups, run, k, uses[t]) == AddressAt(f, b, t) && AddressAt(f, b, t) <= b
    {
      AddressCountsFailures(backups, run, uses[t], k);
      FailuresAtUse(backups, run, k, uses, t);
    }
  }

  // ---- backoff ----

  /** newBackoff's normalisation of its arguments: (min, max). */
  function Normalised(min: int, max: int): (r: (int, int))
    ensures 0 < r.0 <= r.1
    ensures 0 < min <= max ==> r == (min, max)
    ensures min <= 0 ==> r.0 == 1_000_000_000
    ensures max <= r.0 ==> r.1 == r.0
    ensures max >= r.0 ==> r.1 == max
  {
    var lo := if min <= 0 then SECOND else min;
    (lo, if max < lo then lo else max)
  }

  function Capped(max: int, x: int): int { if x > max then max else x }

  class Backoff {
    const min: int
    const max: int
    var cur: int

    constructor (min: int, max: int)
      ensures (this.min, this.max) == Normalised(min, max)
      ensures cur == this.min
    {
      var lo := if min <= 0 then SECOND else min;
      var hi := if max < lo then lo else max;
      this.min, this.max, cur := lo, hi, lo;
    }

    /** Returns how long it waits. */
    method Wait() returns (delay: int)
      modifies this`cur
      ensures delay == old(cur)
      ensures cur == Capped(max, 2 * old(cur))
    {
      delay := cur;
      cur := cur * 2;
      if cur > max {
        cur := max;
      }
    }

    method Reset()
      modifies this`cur
      ensures cur == min
    {
      cur := min;
    }
  }

  /** The uses of one backoff: a wait, or a reset after a connection that lasted. */
  datatype Use = Wait | Reset

  function CurAfter(min: int, max: int, uses: seq<Use>): int {
    if uses == [] then min
    else if uses[|uses| - 1].Reset? then min
    else Capped(max, 2 * CurAfter(min, max, uses[..|uses| - 1]))
  }

  function WaitsSinceReset(uses: seq<Use>): (k: nat) {
    if uses == [] || uses[|uses| - 1].Reset? then 0 else 1 + WaitsSinceReset(uses[..|uses| - 1])
  }

  lemma DoubleCapped(lo: int, hi: int, p: nat)
    requires 0 < lo <= hi && p >= 1
    ensures Capped(hi, 2 * Capped(hi, lo * p)) == Capped(hi, lo * (2 * p))
  {
    assert lo * (2 * p) == 2 * (lo * p);
  }

  /** The next wait, after k waits since the last reset, lasts min(max, min * 2^k). */
  lemma {:induction false} BackoffIsGeometric(min: int, max: int, uses: seq<Use>)
    ensures var (lo, hi) := Normalised(min, max);
            CurAfter(lo, hi, uses) == Capped(hi, lo * Pow2(WaitsSinceReset(uses)))
    decreases |uses|
  {
    var (lo, hi) := Normalised(min, max);
    if uses != [] && uses[|uses| - 1].Wait? {
      var before := uses[..|uses| - 1];
      BackoffIsGeometric(min, max, before);
      DoubleCapped(lo, hi, Pow2(WaitsSinceReset(before)));
    }
  }
}
