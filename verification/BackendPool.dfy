/** Several backends for one port (backendpool.go): probed continuously, dropped after three failures in
    a row, and picked in turn. One step is one probe's result or one pick, both taken under the lock. */
module BackendPool {
  import opened Counting
  import opened Text
  import PortSpec

  const FAIL_THRESHOLD := 3

  /** One probe of the backend named `backend`. */
  datatype Probe = Probe(backend: string, ok: bool)

  // ---- what the pool is meant to be: its backends, every probe so far, and the turn ----

  datatype State = State(backends: seq<string>, history: seq<Probe>, next: nat)

  /** How many probes of `b` have failed since one succeeded. */
  function Fails(history: seq<Probe>, b: string): nat {
    if history == [] then 0
    else
      var last, before := history[|history| - 1], history[..|history| - 1];
      if last.backend != b then Fails(before, b)
      else if last.ok then 0
      else Fails(before, b) + 1
  }

  lemma FailsStep(history: seq<Probe>, p: Probe, a: string)
    ensures Fails(history + [p], a)
            == if a != p.backend then Fails(history, a) else if p.ok then 0 else Fails(history, a) + 1
  {
    assert (history + [p])[..|history|] == history;
  }

  predicate Healthy(history: seq<Probe>, b: string) { Fails(history, b) < FAIL_THRESHOLD }

  /** The outcomes of the probes of `b` alone, in order. */
  function Outcomes(history: seq<Probe>, b: string): seq<bool> {
    if history == [] then []
    else
      var last := history[|history| - 1];
      Outcomes(history[..|history| - 1], b) + if last.backend == b then [last.ok] else []
  }

  /** A backend is out exactly when its last three probes all failed. */
  lemma {:induction false} UnhealthyExactly(history: seq<Probe>, b: string)
    ensures var o := Outcomes(history, b);
            !Healthy(history, b) <==> |o| >= 3 && !o[|o| - 1] && !o[|o| - 2] && !o[|o| - 3]
  {
    FailsTrail(history, b, 3);
  }

  lemma {:induction false} FailsTrail(history: seq<Probe>, b: string, k: nat)
    ensures var o := Outcomes(history, b);
            Fails(history, b) >= k <==> |o| >= k && forall i :: |o| - k <= i < |o| ==> !o[i]
  {
    if history != [] {
      var last, before := history[|history| - 1], history[..|history| - 1];
      var o := Outcomes(history, b);
      if last.backend == b {
        assert o[|o| - 1] == last.ok;
        if k > 0 {
          FailsTrail(before, b, k - 1);
          assert forall i :: 0 <= i < |o| - 1 ==> o[i] == Outcomes(before, b)[i];
        }
      } else {
        FailsTrail(before, b, k);
        assert o == Outcomes(before, b);
      }
    }
  }

  /** The backends to pick from, in the order of the target. */
  function Live(backends: seq<string>, history: seq<Probe>): (live: seq<string>)
    ensures forall i :: 0 <= i < |live| ==> live[i] in backends && Healthy(history, live[i])
  {
    if backends == [] then []
    else
      var b := backends[|backends| - 1];
      Live(backends[..|backends| - 1], history) + if Healthy(history, b) then [b] else []
  }

  /** `at` are the places of the healthy backends among all, in order, none left out. */
  ghost predicate HealthyAt(backends: seq<string>, history: seq<Probe>, at: seq<nat>) {
    && (forall i :: 0 <= i < |at| ==> at[i] < |backends| && Healthy(history, backends[at[i]]))
    && (forall i, j :: 0 <= i < j < |at| ==> at[i] < at[j])
    && (forall k: nat :: k < |backends| && Healthy(history, backends[k]) ==> k in at)
  }

  lemma {:induction false} LiveSifted(backends: seq<string>, history: seq<Probe>) returns (at: seq<nat>)
    ensures Sifted(backends, Live(backends, history), at, (b: string) => Healthy(history, b), (b: string) => b)
  {
    hide Healthy, Sifted;
    var good, image := (b: string) => Healthy(history, b), (b: string) => b;
    if backends == [] {
      at := [];
      NothingSifted(good, image);
    } else {
      var init, last := backends[..|backends| - 1], backends[|backends| - 1];
      at := LiveSifted(init, history);
      SiftMore(init, Live(init, history), at, good, image, last);
      at := at + if good(last) then [|init|] else [];
      assert backends == init + [last];
    }
  }

  /** The backends to pick from are exactly the healthy ones, in the target's order. */
  lemma LiveExactly(backends: seq<string>, history: seq<Probe>) returns (at: seq<nat>)
    ensures HealthyAt(backends, history, at)
    ensures |Live(backends, history)| == |at|
    ensures forall i :: 0 <= i < |at| ==> Live(backends, history)[i] == backends[at[i]]
  {
    hide Healthy, Live;
    at := LiveSifted(backends, history);
  }

  predicate TakesTurns(s: State) { |s.backends| > 1 && Live(s.backends, s.history) != [] }

  function Choice(s: State): string {
    if s.backends == [] then ""
    else if TakesTurns(s) then
      var live := Live(s.backends, s.history);
      live[s.next % |live|]
    else s.backends[0]
  }

  /** One event: a probe's result, or a pick. */
  datatype Event = Probed(probe: Probe) | Picked

  function Step(s: State, e: Event): State {
    match e
    case Probed(probe) => s.(history := s.history + [probe])
    case Picked => if TakesTurns(s) then s.(next := s.next + 1) else s
  }

  // ---- the pool ----

  /** The backends a target lists. */
  function BackendsIn(parts: seq<string>): (backends: seq<string>)
    ensures forall i :: 0 <= i < |backends| ==> backends[i] != ""
  {
    if parts == [] then []
    else
      var b := TrimSpace(parts[|parts| - 1]);
      BackendsIn(parts[..|parts| - 1]) + if b != "" then [b] else []
  }

  function Backends(target: string): seq<string> { BackendsIn(Split(target, '|')) }

  /** A target's backends are exactly its parts that are not blank, trimmed, in order. */
  lemma {:induction false} BackendsExactly(parts: seq<string>) returns (at: seq<nat>)
    ensures Sifted(parts, BackendsIn(parts), at, (p: string) => TrimSpace(p) != "", (p: string) => TrimSpace(p))
  {
    hide TrimSpace, Sifted;
    var good, image := (p: string) => TrimSpace(p) != "", (p: string) => TrimSpace(p);
    if parts == [] {
      at := [];
      NothingSifted(good, image);
    } else {
      var init, last := parts[..|parts| - 1], parts[|parts| - 1];
      at := BackendsExactly(init);
      SiftMore(init, BackendsIn(init), at, good, image, last);
      at := at + if good(last) then [|init|] else [];
      assert parts == init + [last];
    }
  }

  class Pool {
    var backends: seq<string>
    var healthy: map<string, bool>
    var fails: map<string, int>
    var next: int
    ghost var history: seq<Probe>

    /** A key a Go map does not hold reads as the zero value. */
    function FailsOf(b: string): int
      reads this
    {
      if b in fails then fails[b] else 0
    }

    ghost predicate Valid()
      reads this
    {
      && next >= 0
      && forall b :: b in backends ==>
           b in healthy && FailsOf(b) == Fails(history, b) && healthy[b] == Healthy(history, b)
    }

    ghost function Abs(): State
      reads this
      requires Valid()
    {
      State(backends, history, next)
    }

    constructor (target: string)
      ensures Valid() && Abs() == State(Backends(target), [], 0)
    {
      hide TrimSpace, Split;
      var bs: seq<string> := [];
      var parts := Split(target, '|');
      var i := 0;
      assert parts[..0] == [];
      while i < |parts|
        invariant 0 <= i <= |parts| && bs == BackendsIn(parts[..i])
      {
        var b := TrimSpace(parts[i]);
        assert parts[..i + 1][..i] == parts[..i];
        if b != "" {
          bs := bs + [b];
        }
        i := i + 1;
      }
      assert parts[..i] == parts;
      var h: map<string, bool> := map[];
      i := 0;
      while i < |bs|
        invariant 0 <= i <= |bs|
        invariant forall b :: b in bs[..i] ==> b in h && h[b]
      {
        h := h[bs[i] := true];
        assert bs[..i + 1] == bs[..i] + [bs[i]];
        i := i + 1;
      }
      assert bs[..i] == bs;
      backends, healthy, fails, next, history := bs, h, map[], 0, [];
    }

    /** What healthLoop does with one probe's result. */
    method OnProbe(b: string, ok: bool)
      requires Valid() && b in backends
      modifies this
      ensures Valid() && Abs() == Step(old(Abs()), Probed(Probe(b, ok)))
      ensures history == old(history) + [Probe(b, ok)]
    {
      hide Fails;
      forall a: string {:trigger Fails(history, a)}
        ensures Fails(history + [Probe(b, ok)], a) == if a != b then Fails(history, a) else if ok then 0 else Fails(history, a) + 1
      {
        FailsStep(history, Probe(b, ok), a);
      }
      history := history + [Probe(b, ok)];
      if ok {
        fails := fails[b := 0];
        healthy := healthy[b := true];
      } else {
        fails := fails[b := FailsOf(b) + 1];
        if FailsOf(b) >= FAIL_THRESHOLD {
          healthy := healthy[b := false];
        }
      }
    }

    method Pick() returns (b: string)
      requires Valid()
      modifies this`next
      ensures Valid() && b == Choice(old(Abs())) && Abs() == Step(old(Abs()), Picked)
    {
      if |backends| <= 1 {
        if |backends| == 0 {
          return "";
        }
        return backends[0];
      }
      var live: seq<string> := [];
      var i := 0;
      assert backends[..0] == [];
      while i < |backends|
        invariant 0 <= i <= |backends| && live == Live(backends[..i], history)
      {
        assert backends[..i + 1][..i] == backends[..i];
        if healthy[backends[i]] {
          live := live + [backends[i]];
        }
        i := i + 1;
      }
      assert backends[..i] == backends;
      if |live| == 0 {
        return backends[0];
      }
      b := live[next % |live|];
      next := next + 1;
    }
  }

  // ---- fairness over runs ----

  function Run(s: State, events: seq<Event>): State
    decreases |events|
  {
    if events == [] then s else Run(Step(s, events[0]), events[1..])
  }

  function ProbesIn(events: seq<Event>): seq<Probe> {
    if events == [] then [] else (if events[0].Probed? then [events[0].probe] else []) + ProbesIn(events[1..])
  }

  /** The history health is judged by is exactly the probes of the run, in order. */
  lemma {:induction false} HistoryIsTheProbes(s: State, events: seq<Event>)
    ensures Run(s, events).history == s.history + ProbesIn(events)
    decreases |events|
  {
    if events != [] {
      HistoryIsTheProbes(Step(s, events[0]), events[1..]);
    }
  }

  /** What the picks of a run return. */
  function Results(s: State, events: seq<Event>): seq<string>
    decreases |events|
  {
    if events == [] then []
    else (if events[0].Picked? then [Choice(s)] else []) + Results(Step(s, events[0]), events[1..])
  }

  /** The same backends are live before every event; probes may go on, as long as they change nothing. */
  ghost predicate LiveThroughout(s: State, events: seq<Event>, live: seq<string>)
    decreases |events|
  {
    events != [] ==>
      && Live(s.backends, s.history) == live
      && LiveThroughout(Step(s, events[0]), events[1..], live)
  }

  /** While nothing changes, the picks go round the live backends. */
  lemma {:induction false} RoundRobin(s: State, events: seq<Event>, live: seq<string>)
    requires |s.backends| > 1 && live != [] && LiveThroughout(s, events, live)
    ensures forall i :: 0 <= i < |Results(s, events)| ==> Results(s, events)[i] == live[(s.next + i) % |live|]
    ensures Run(s, events).next == s.next + |Results(s, events)|
    decreases |events|
  {
    hide Choice, Live, Step;
    if events != [] {
      var s' := Step(s, events[0]);
      StepKeeps(s, events[0]);
      RoundRobin(s', events[1..], live);
      if events[0].Picked? {
        TurnTaken(s, live);
        OneTurnMore(s.next, live, Choice(s), Results(s', events[1..]));
      }
    }
  }

  /** A turn in front of a round that starts with the next one. */
  lemma OneTurnMore(next: nat, live: seq<string>, first: string, rest: seq<string>)
    requires live != [] && first == live[next % |live|]
    requires forall i :: 0 <= i < |rest| ==> rest[i] == live[(next + 1 + i) % |live|]
    ensures forall i :: 0 <= i < |[first] + rest| ==> ([first] + rest)[i] == live[(next + i) % |live|]
  {
    forall i | 0 < i < |[first] + rest|
      ensures ([first] + rest)[i] == live[(next + i) % |live|]
    {
      assert ([first] + rest)[i] == rest[i - 1];
      assert next + 1 + (i - 1) == next + i;
    }
  }

  lemma StepKeeps(s: State, e: Event)
    ensures Step(s, e).backends == s.backends
    ensures e.Probed? ==> Step(s, e).next == s.next
  {
  }

  lemma TurnTaken(s: State, live: seq<string>)
    requires |s.backends| > 1 && live != [] && Live(s.backends, s.history) == live
    ensures Choice(s) == live[s.next % |live|] && Step(s, Picked) == s.(next := s.next + 1)
  {
  }

  /** How often, in `k` turns starting with turn `n`, it is the turn of entry `j` of `m`. */
  function Turns(n: nat, k: nat, m: nat, j: nat): nat
    requires m > 0
  {
    if k == 0 then 0 else Turns(n, k - 1, m, j) + if (n + (k - 1)) % m == j then 1 else 0
  }

  /** The turns of entry `j` before turn `x`. */
  function Before(x: nat, m: nat, j: nat): nat
    requires m > 0
  {
    x / m + if x % m > j then 1 else 0
  }

  lemma BeforeNext(x: nat, m: nat, j: nat)
    requires j < m
    ensures Before(x + 1, m, j) == Before(x, m, j) + if x % m == j then 1 else 0
  {
    var q, r := x / m, x % m;
    if r + 1 < m {
      DivIs(x + 1, m, q, r + 1);
    } else {
      assert (q + 1) * m == q * m + m;
      DivIs(x + 1, m, q + 1, 0);
    }
  }

  lemma {:induction false} TurnsCounted(n: nat, k: nat, m: nat, j: nat)
    requires j < m
    ensures Before(n + k, m, j) == Before(n, m, j) + Turns(n, k, m, j)
  {
    if k > 0 {
      TurnsCounted(n, k - 1, m, j);
      BeforeNext(n + (k - 1), m, j);
    }
  }

  /** In any `k` turns every entry has its full rounds, and at most one turn more. */
  lemma EvenTurns(n: nat, k: nat, m: nat, j: nat)
    requires j < m
    ensures k / m <= Turns(n, k, m, j) <= k / m + (if k % m == 0 then 0 else 1)
  {
    hide Turns;
    TurnsCounted(n, k, m, j);
    AddDiv(n, k, m);
  }

  /** Adding two numbers adds their quotients, and one more when their remainders overflow. */
  lemma AddDiv(n: nat, k: nat, m: nat)
    requires m > 0
    ensures var r := n % m + k % m;
            if r < m then (n + k) / m == n / m + k / m && (n + k) % m == r
            else (n + k) / m == n / m + k / m + 1 && (n + k) % m == r - m
  {
    AddDivided(n, k, m, n / m, k / m, n % m, k % m);
  }

  lemma AddDivided(n: nat, k: nat, m: nat, q: nat, p: nat, r: nat, t: nat)
    requires m > 0 && n == q * m + r && k == p * m + t && r < m && t < m
    ensures r + t < m ==> (n + k) / m == q + p && (n + k) % m == r + t
    ensures r + t >= m ==> (n + k) / m == q + p + 1 && (n + k) % m == r + t - m
  {
    if r + t < m {
      AddMul(m, q, p, 0);
      DivIs(n + k, m, q + p, r + t);
    } else {
      AddMul(m, q, p, 1);
      DivIs(n + k, m, q + p + 1, r + t - m);
    }
  }

  lemma AddMul(m: nat, q: nat, p: nat, e: nat)
    ensures (q + p + e) * m == q * m + p * m + e * m
  {
  }

  /** In `|live|` consecutive picks every entry has exactly one turn; over any number of picks two
      entries' turns differ by at most one. */
  lemma FairTurns(n: nat, m: nat)
    requires m > 0
    ensures forall j :: 0 <= j < m ==> Turns(n, m, m, j) == 1
    ensures forall k: nat, i, j :: 0 <= i < m && 0 <= j < m ==> Turns(n, k, m, i) <= Turns(n, k, m, j) + 1
  {
    hide Turns;
    forall j | 0 <= j < m
      ensures Turns(n, m, m, j) == 1
    {
      DivIs(m, m, 1, 0);
      EvenTurns(n, m, m, j);
    }
    forall k: nat, i, j | 0 <= i < m && 0 <= j < m
      ensures Turns(n, k, m, i) <= Turns(n, k, m, j) + 1
    {
      EvenTurns(n, k, m, i);
      EvenTurns(n, k, m, j);
    }
  }

  lemma {:induction false} ResultsCounted(results: seq<string>, n: nat, live: seq<string>, j: nat)
    requires Distinct(live) && j < |live|
    requires forall i :: 0 <= i < |results| ==> results[i] == live[(n + i) % |live|]
    ensures multiset(results)[live[j]] == Turns(n, |results|, |live|, j)
  {
    if results != [] {
      var k := |results| - 1;
      ResultsCounted(results[..k], n, live, j);
      assert results == results[..k] + [results[k]];
      var at := (n + k) % |live|;
      assert results[k] == live[at];
      assert live[at] == live[j] <==> at == j;
    }
  }

  lemma Share(s: State, events: seq<Event>, live: seq<string>, j: nat)
    requires |s.backends| > 1 && live != [] && LiveThroughout(s, events, live)
    requires Distinct(live) && j < |live|
    ensures var k, m, share := |Results(s, events)|, |live|, multiset(Results(s, events))[live[j]];
            && k / m <= share <= k / m + (if k % m == 0 then 0 else 1)
            && (k == m ==> share == 1)
  {
    hide Turns, Results, LiveThroughout;
    RoundRobin(s, events, live);
    var results := Results(s, events);
    ResultsCounted(results, s.next, live, j);
    EvenTurns(s.next, |results|, |live|, j);
    if |results| == |live| {
      DivIs(|live|, |live|, 1, 0);
    }
  }

  // ---- fairness, for the healthy backends of the target ----

  ghost predicate SameHealth(backends: seq<string>, h: seq<Probe>, h': seq<Probe>) {
    forall i :: 0 <= i < |backends| ==> (Healthy(h, backends[i]) <==> Healthy(h', backends[i]))
  }

  /** Before every event the backends are as healthy as they were under `h`. Probes may go on, and
      fail, as long as they change nothing. */
  ghost predicate Steady(s: State, events: seq<Event>, h: seq<Probe>)
    decreases |events|
  {
    events != [] ==> SameHealth(s.backends, s.history, h) && Steady(Step(s, events[0]), events[1..], h)
  }

  lemma {:induction false} SameHealthSameLive(backends: seq<string>, h: seq<Probe>, h': seq<Probe>)
    requires SameHealth(backends, h, h')
    ensures Live(backends, h) == Live(backends, h')
  {
    hide Healthy;
    if backends != [] {
      SameHealthSameLive(backends[..|backends| - 1], h, h');
    }
  }

  lemma {:induction false} SteadyIsLive(s: State, events: seq<Event>, h: seq<Probe>)
    requires Steady(s, events, h)
    ensures LiveThroughout(s, events, Live(s.backends, h))
    decreases |events|
  {
    hide Live, SameHealth;
    if events != [] {
      SameHealthSameLive(s.backends, s.history, h);
      StepKeeps(s, events[0]);
      SteadyIsLive(Step(s, events[0]), events[1..], h);
    }
  }

  /** Round robin over whatever is healthy: over any run of probes and picks that leaves everybody's
      health as it is, the i-th pick returns the next healthy backend of the target, in its order,
      going round all of them; and the turn moves by one per pick. */
  lemma PicksGoRound(s: State, events: seq<Event>) returns (at: seq<nat>)
    requires |s.backends| > 1 && Steady(s, events, s.history)
    requires exists k :: 0 <= k < |s.backends| && Healthy(s.history, s.backends[k])
    ensures HealthyAt(s.backends, s.history, at) && at != []
    ensures forall i :: 0 <= i < |Results(s, events)| ==>
              Results(s, events)[i] == s.backends[at[(s.next + i) % |at|]]
    ensures Run(s, events).next == s.next + |Results(s, events)|
  {
    hide Healthy, Steady, LiveThroughout, Results, Run;
    at := LiveExactly(s.backends, s.history);
    SteadyIsLive(s, events, s.history);
    RoundRobin(s, events, Live(s.backends, s.history));
  }

  /** The share of every backend in such a run, for a target that lists each once: a healthy one is
      returned as often as any other up to one, exactly once in as many picks as there are healthy
      ones, and an unhealthy one never. */
  lemma EvenShares(s: State, events: seq<Event>, b: nat) returns (at: seq<nat>)
    requires |s.backends| > 1 && Steady(s, events, s.history) && Distinct(s.backends) && b < |s.backends|
    requires exists k :: 0 <= k < |s.backends| && Healthy(s.history, s.backends[k])
    ensures HealthyAt(s.backends, s.history, at) && at != []
    ensures var k, m, share := |Results(s, events)|, |at|, multiset(Results(s, events))[s.backends[b]];
            if Healthy(s.history, s.backends[b]) then
              && k / m <= share <= k / m + (if k % m == 0 then 0 else 1)
              && (k == m ==> share == 1)
            else share == 0
  {
    hide Healthy, Live, Steady, LiveThroughout, Results, Run;
    at := LiveExactly(s.backends, s.history);
    var live := Live(s.backends, s.history);
    SteadyIsLive(s, events, s.history);
    if Healthy(s.history, s.backends[b]) {
      var j := PlaceOf(at, b);
      PickedApart(s.backends, at, live);
      hide Distinct, HealthyAt;
      Share(s, events, live, j);
    } else {
      RoundRobin(s, events, live);
      LeftOut(s.backends, s.history, at, live, b);
      NeverReturned(Results(s, events), s.next, live, s.backends[b]);
    }
  }

  lemma PlaceOf(at: seq<nat>, b: nat) returns (j: nat)
    requires b in at
    ensures j < |at| && at[j] == b
  {
    j :| j < |at| && at[j] == b;
  }

  lemma PickedApart(backends: seq<string>, at: seq<nat>, live: seq<string>)
    requires Distinct(backends) && |live| == |at|
    requires forall i :: 0 <= i < |at| ==> at[i] < |backends| && live[i] == backends[at[i]]
    requires forall i, j :: 0 <= i < j < |at| ==> at[i] < at[j]
    ensures Distinct(live)
  {
  }

  lemma LeftOut(backends: seq<string>, history: seq<Probe>, at: seq<nat>, live: seq<string>, b: nat)
    requires HealthyAt(backends, history, at) && |live| == |at| && b < |backends|
    requires forall i :: 0 <= i < |at| ==> live[i] == backends[at[i]]
    requires !Healthy(history, backends[b])
    ensures forall j :: 0 <= j < |live| ==> live[j] != backends[b]
  {
    hide Healthy;
  }

  lemma {:induction false} NeverReturned(results: seq<string>, n: nat, live: seq<string>, b: string)
    requires live != [] && forall i :: 0 <= i < |results| ==> results[i] == live[(n + i) % |live|]
    requires forall j :: 0 <= j < |live| ==> live[j] != b
    ensures multiset(results)[b] == 0
  {
    if results != [] {
      var k := |results| - 1;
      NeverReturned(results[..k], n, live, b);
      assert results == results[..k] + [results[k]];
      assert live[(n + k) % |live|] != b;
    }
  }

  /** Picks made while some backend was healthy. */
  function TurnsTaken(s: State, events: seq<Event>): nat
    decreases |events|
  {
    if events == [] then 0
    else (if events[0].Picked? && exists k :: 0 <= k < |s.backends| && Healthy(s.history, s.backends[k]) then 1 else 0)
         + TurnsTaken(Step(s, events[0]), events[1..])
  }

  /** Over every run the turn moves by one for each pick made while some backend was healthy, and by
      nothing else: an outage costs nobody a turn. */
  lemma {:induction false} OutagesKeepTheTurn(s: State, events: seq<Event>)
    requires |s.backends| > 1
    ensures Run(s, events).next == s.next + TurnsTaken(s, events)
    decreases |events|
  {
    hide Healthy, Live;
    if events != [] {
      LiveComplete(s.backends, s.history);
      OutagesKeepTheTurn(Step(s, events[0]), events[1..]);
    }
  }

  /** With nobody healthy, and with one backend only, a pick falls back on the first backend and the
      pool stays as it is. */
  lemma FallbackIsTheFirst(s: State)
    requires s.backends != []
    requires |s.backends| == 1 || forall k :: 0 <= k < |s.backends| ==> !Healthy(s.history, s.backends[k])
    ensures Choice(s) == s.backends[0] && Step(s, Picked) == s
  {
    hide Healthy;
    LiveComplete(s.backends, s.history);
  }

  /** A backend with three failures behind it is picked only if every one is in that state. */
  lemma UnhealthyPickedExactly(s: State)
    requires |s.backends| > 1
    ensures Choice(s) in s.backends
    ensures !Healthy(s.history, Choice(s)) <==> forall i :: 0 <= i < |s.backends| ==> !Healthy(s.history, s.backends[i])
  {
    LiveComplete(s.backends, s.history);
    if TakesTurns(s) {
      var live := Live(s.backends, s.history);
      assert Choice(s) == live[s.next % |live|];
    }
  }

  lemma {:induction false} LiveComplete(backends: seq<string>, history: seq<Probe>)
    ensures Live(backends, history) == [] <==> forall i :: 0 <= i < |backends| ==> !Healthy(history, backends[i])
  {
    if backends != [] {
      LiveComplete(backends[..|backends| - 1], history);
    }
  }

  // ---- targets that come from the port notation ----

  lemma {:induction false} AllBackendsKept(parts: seq<string>)
    requires forall i :: 0 <= i < |parts| ==> TrimSpace(parts[i]) != ""
    ensures |BackendsIn(parts)| == |parts|
    ensures forall i :: 0 <= i < |parts| ==> BackendsIn(parts)[i] == TrimSpace(parts[i])
  {
    hide TrimSpace;
    if parts != [] {
      AllBackendsKept(parts[..|parts| - 1]);
    }
  }

  /** The pool of a target the parser accepted holds one backend per part, and a pick from it, after
      whatever probes and picks, names one of them. */
  lemma PickNamesABackend(spec: string, events: seq<Event>)
    requires PortSpec.ParsePortSpec(spec).Ok?
    ensures var target := PortSpec.ParsePortSpec(spec).value.target;
            var s := Run(State(Backends(target), [], 0), events);
            && |Backends(target)| == |Split(target, '|')|
            && Choice(s) in Backends(target) && Choice(s) != ""
  {
    hide PortSpec.ParsePortSpec, Run, TrimSpace, Split, Choice, BackendsIn;
    PortSpec.ParsedIsWellFormed(spec);
    var target := PortSpec.ParsePortSpec(spec).value.target;
    AllBackendsKept(Split(target, '|'));
    var s := State(Backends(target), [], 0);
    BackendsStay(s, events);
    ChoiceIsABackend(Run(s, events));
  }

  lemma {:induction false} BackendsStay(s: State, events: seq<Event>)
    ensures Run(s, events).backends == s.backends
    decreases |events|
  {
    if events != [] {
      BackendsStay(Step(s, events[0]), events[1..]);
    }
  }

  lemma ChoiceIsABackend(s: State)
    requires s.backends != []
    ensures Choice(s) in s.backends
  {
    if TakesTurns(s) {
      var live := Live(s.backends, s.history);
      assert live[s.next % |live|] in s.backends;
    }
  }

  // ---- the registry ----

  /** getBackendPool: one pool per target, shared by every flow to the port. */
  class Registry {
    var pools: map<string, Pool>

    constructor ()
      ensures pools == map[]
    {
      pools := map[];
    }

    method GetBackendPool(target: string) returns (p: Pool)
      modifies this
      ensures target in pools && p == pools[target]
      ensures target in old(pools) ==> pools == old(pools)
      ensures target !in old(pools) ==>
                fresh(p) && pools == old(pools)[target := p] && p.Valid()
                && p.Abs() == State(Backends(target), [], 0)
    {
      if target in pools {
        return pools[target];
      }
      p := new Pool(target);
      pools := pools[target := p];
    }
  }
}
