/** The pool maintainer of client.go: when it grows the pool, when and how far it drains it, and
    what its shrink calls close. Times are nanoseconds of one monotone clock. */
module Maintainer {
  import opened Counting
  import opened Options

  datatype Config = Config(minIdle: nat, maxIdle: nat, grace: nat)

  /** What `validate` guarantees of a loaded configuration. */
  predicate ValidConfig(cfg: Config) { 1 <= cfg.minIdle <= cfg.maxIdle }

  datatype Action = Spawn(count: nat) | Shrink(batch: nat) | Leave

  /** One tick as a function of `overSince`, the time and the active count it reads. */
  function TickOf(cfg: Config, over: Option<nat>, now: nat, n: nat): (Option<nat>, Action) {
    if n < cfg.minIdle then (None, Spawn(cfg.minIdle - n))
    else if n > cfg.maxIdle then
      if over == None then (Some(now), Leave)
      else if now > over.value + cfg.grace then (over, Shrink((n - cfg.maxIdle + 1) / 2))
      else (over, Leave)
    else (None, Leave)
  }

  class Ticker {
    const cfg: Config
    var overSince: Option<nat>

    constructor (cfg: Config)
      ensures this.cfg == cfg && overSince == None
    {
      this.cfg, overSince := cfg, None;
    }

    /** Spawns and shrinks are counted as the loops of the tick issue them. */
    method Tick(now: nat, n: nat) returns (spawned: nat, shrunk: nat)
      modifies this`overSince
      ensures overSince == TickOf(cfg, old(overSince), now, n).0
      ensures match TickOf(cfg, old(overSince), now, n).1
              case Spawn(count) => spawned == count && shrunk == 0
              case Shrink(batch) => spawned == 0 && shrunk == batch
              case Leave => spawned == 0 && shrunk == 0
      ensures spawned > 0 <==> n < cfg.minIdle
      ensures n < cfg.minIdle ==> n + spawned == cfg.minIdle && shrunk == 0 && overSince == None
      ensures n <= cfg.maxIdle ==> shrunk == 0
      ensures cfg.minIdle <= n ==> spawned == 0
      ensures shrunk > 0 ==> cfg.minIdle <= cfg.maxIdle ==> n - shrunk >= cfg.maxIdle
    {
      spawned, shrunk := 0, 0;
      if n < cfg.minIdle {
        var i := n;
        while i < cfg.minIdle
          invariant n <= i <= cfg.minIdle && spawned == i - n
        {
          spawned := spawned + 1;
          i := i + 1;
        }
        overSince := None;
      } else if n > cfg.maxIdle {
        if overSince == None {
          overSince := Some(now);
        } else if now > overSince.value + cfg.grace {
          var excess := n - cfg.maxIdle;
          var batch := (excess + 1) / 2;
          while shrunk < batch
            invariant shrunk <= batch
          {
            shrunk := shrunk + 1;
          }
        }
      } else {
        overSince := None;
      }
    }
  }

  // ---- when it grows ----

  /** A tick grows the pool exactly when it is below `minIdle`, and exactly up to it. */
  lemma GrowsExactly(cfg: Config, over: Option<nat>, now: nat, n: nat)
    ensures var action := TickOf(cfg, over, now, n).1;
            && (action.Spawn? <==> n < cfg.minIdle)
            && (action.Spawn? ==> n + action.count == cfg.minIdle)
  {
  }

  /** Any pool below `minIdle` is at `minIdle` after one settled tick and stays there. */
  lemma RefillsAtOnce(cfg: Config, over: Option<nat>, n: nat, ticks: seq<nat>)
    requires ValidConfig(cfg) && n < cfg.minIdle && ticks != []
    ensures Settled(cfg, over, n, ticks) == cfg.minIdle
  {
    StaysSettled(cfg, None, cfg.minIdle, ticks[1..]);
  }

  // ---- when it shrinks, over whole runs ----

  /** What a tick sees. */
  datatype Seen = Seen(now: nat, n: nat)

  function OverAfter(cfg: Config, ticks: seq<Seen>): Option<nat> {
    if ticks == [] then None
    else
      var last := ticks[|ticks| - 1];
      TickOf(cfg, OverAfter(cfg, ticks[..|ticks| - 1]), last.now, last.n).0
  }

  /** The action of the last tick of a history. */
  function LastAction(cfg: Config, ticks: seq<Seen>): Action
    requires ticks != []
  {
    var last := ticks[|ticks| - 1];
    TickOf(cfg, OverAfter(cfg, ticks[..|ticks| - 1]), last.now, last.n).1
  }

  predicate Ordered(ticks: seq<Seen>) {
    forall i, j :: 0 <= i <= j < |ticks| ==> ticks[i].now <= ticks[j].now
  }

  /** Every tick from `j` on saw more than `maxIdle`. */
  predicate OverSinceTick(cfg: Config, ticks: seq<Seen>, j: nat) {
    j < |ticks| && forall i :: j <= i < |ticks| ==> ticks[i].n > cfg.maxIdle
  }

  /** `overSince` is the time of the first tick of the current stretch above `maxIdle`. */
  lemma {:induction false} OverMeaning(cfg: Config, ticks: seq<Seen>) returns (j: nat)
    requires ValidConfig(cfg)
    ensures OverAfter(cfg, ticks) == None <==> ticks == [] || ticks[|ticks| - 1].n <= cfg.maxIdle
    ensures OverAfter(cfg, ticks).Some? ==>
              && OverSinceTick(cfg, ticks, j) && OverAfter(cfg, ticks) == Some(ticks[j].now)
              && (j == 0 || ticks[j - 1].n <= cfg.maxIdle)
    decreases |ticks|
  {
    j := 0;
    if ticks != [] {
      var before, last := ticks[..|ticks| - 1], ticks[|ticks| - 1];
      var k := OverMeaning(cfg, before);
      j := if OverAfter(cfg, before) == None then |before| else k;
    }
  }

  /** Nothing shrinks unless every tick over more than the grace period saw the pool above
      `maxIdle`, and then it always does: the last tick of a history shrinks exactly when such a
      stretch leads up to it, and by half the excess, rounded up. */
  lemma ShrinksExactly(cfg: Config, ticks: seq<Seen>)
    requires ValidConfig(cfg) && ticks != [] && Ordered(ticks)
    ensures var last := ticks[|ticks| - 1];
            LastAction(cfg, ticks).Shrink? <==>
            exists j: nat :: OverSinceTick(cfg, ticks, j) && last.now > ticks[j].now + cfg.grace
    ensures LastAction(cfg, ticks).Shrink? ==>
              2 * LastAction(cfg, ticks).batch - (ticks[|ticks| - 1].n - cfg.maxIdle) in {0, 1}
  {
    var before, last := ticks[..|ticks| - 1], ticks[|ticks| - 1];
    var k := OverMeaning(cfg, before);
    if LastAction(cfg, ticks).Shrink? {
      assert OverSinceTick(cfg, ticks, k) && last.now > ticks[k].now + cfg.grace;
    }
    if j: nat :| OverSinceTick(cfg, ticks, j) && last.now > ticks[j].now + cfg.grace {
      assert j < |before| && ticks[|before| - 1].n > cfg.maxIdle;
      assert k == 0 || before[k - 1] == ticks[k - 1];
      assert k <= j && ticks[k].now <= ticks[j].now;
    }
  }

  // ---- how fast it drains ----

  /** The active count after further ticks when every spawn and shrink has taken effect before the
      next one and nothing else changes it: what TcpClient.Drain does in tcp mode. In tcpmux mode a
      batch of two or more need not take effect, see MuxBatchPanicsExactly. */
  function Settled(cfg: Config, over: Option<nat>, n: nat, ticks: seq<nat>): int
    decreases |ticks|
  {
    if ticks == [] then n
    else
      var (later, action) := TickOf(cfg, over, ticks[0], n);
      match action
      case Spawn(count) => Settled(cfg, later, n + count, ticks[1..])
      case Shrink(batch) => if batch <= n then Settled(cfg, later, n - batch, ticks[1..]) else -1
      case Leave => Settled(cfg, later, n, ticks[1..])
  }

  lemma DivPositive(e: nat, d: nat)
    requires e >= d > 0
    ensures e / d >= 1
  {
    var q, r := e / d, e % d;
    assert e == q * d + r;
    assert q == 0 ==> q * d == 0;
  }

  lemma HalveTwice(e: nat, k: nat)
    requires k > 0
    ensures e / Pow2(k) == (e / 2) / Pow2(k - 1)
  {
    var p := Pow2(k - 1);
    var half := e / 2;
    var q, r := half / p, half % p;
    assert half == q * p + r;
    assert q * (2 * p) == 2 * (q * p);
    DivIs(e, 2 * p, q, 2 * r + e % 2);
  }

  /** A pool at `maxIdle` or below but not under `minIdle` is left alone. */
  lemma {:induction false} StaysSettled(cfg: Config, over: Option<nat>, n: nat, ticks: seq<nat>)
    requires ValidConfig(cfg) && cfg.minIdle <= n <= cfg.maxIdle
    ensures Settled(cfg, over, n, ticks) == n
    decreases |ticks|
  {
    if ticks != [] {
      StaysSettled(cfg, None, n, ticks[1..]);
    }
  }

  /** Drain law: once the grace period is over, an excess E over `maxIdle` is floor(E / 2^k) after k
      ticks; the pool is never taken below `maxIdle`. */
  lemma {:induction false} DrainHalves(cfg: Config, since: nat, excess: nat, ticks: seq<nat>)
    requires ValidConfig(cfg)
    requires forall i :: 0 <= i < |ticks| ==> ticks[i] > since + cfg.grace
    ensures Settled(cfg, Some(since), cfg.maxIdle + excess, ticks) == cfg.maxIdle + excess / Pow2(|ticks|)
    decreases |ticks|
  {
    if ticks == [] {
    } else if excess == 0 {
      StaysSettled(cfg, None, cfg.maxIdle, ticks[1..]);
      DivIs(0, Pow2(|ticks|), 0, 0);
    } else {
      var batch := (excess + 1) / 2;
      assert excess - batch == excess / 2;
      DrainHalves(cfg, since, excess / 2, ticks[1..]);
      HalveTwice(excess, |ticks|);
    }
  }

  /** floor(log2 e) for a positive excess. */
  function Log2(e: nat): (l: nat)
    requires e > 0
    ensures Pow2(l) <= e < 2 * Pow2(l)
  {
    if e == 1 then 0 else 1 + Log2(e / 2)
  }

  /** It takes floor(log2 E) + 1 ticks, no more and no fewer, to remove the whole excess. */
  lemma DrainTime(cfg: Config, since: nat, excess: nat, ticks: seq<nat>)
    requires ValidConfig(cfg) && excess > 0
    requires forall i :: 0 <= i < |ticks| ==> ticks[i] > since + cfg.grace
    ensures Settled(cfg, Some(since), cfg.maxIdle + excess, ticks) == cfg.maxIdle
            <==> |ticks| >= Log2(excess) + 1
  {
    DrainHalves(cfg, since, excess, ticks);
    var l := Log2(excess);
    if |ticks| >= l + 1 {
      Pow2Grows(l + 1, |ticks|);
      DivIs(excess, Pow2(|ticks|), 0, excess);
    } else {
      Pow2Grows(|ticks|, l);
      DivPositive(excess, Pow2(|ticks|));
    }
  }

  lemma {:induction false} Pow2Grows(a: nat, b: nat)
    requires a <= b
    ensures Pow2(a) <= Pow2(b)
    decreases b
  {
    if a < b {
      Pow2Grows(a, b - 1);
    }
  }

  // ---- what a shrink closes: tcp mode ----

  class TcpPool {
    /** Idle pool connections and the channel that stops each. */
    var tcpIdle: map<nat, nat>
    /** Every close of a stop channel, in order. */
    var closes: seq<nat>

    constructor ()
      ensures Valid() && tcpIdle == map[] && closes == []
    {
      tcpIdle, closes := map[], [];
    }

    /** No channel was closed twice, and none that can still be closed was closed before. */
    ghost predicate Valid()
      reads this
    {
      && Distinct(closes)
      && (forall c :: c in tcpIdle ==> tcpIdle[c] !in closes)
      && (forall c, d :: c in tcpIdle && d in tcpIdle && c != d ==> tcpIdle[c] != tcpIdle[d])
    }

    /** A worker that becomes idle brings a new channel. */
    method Register(conn: nat, stop: nat)
      requires Valid() && conn !in tcpIdle
      requires stop !in closes && forall c :: c in tcpIdle ==> tcpIdle[c] != stop
      modifies this`tcpIdle
      ensures Valid() && tcpIdle == old(tcpIdle)[conn := stop]
    {
      tcpIdle := tcpIdle[conn := stop];
    }

    /** A worker that got its target, or whose connection broke. */
    method Unregister(conn: nat)
      requires Valid()
      modifies this`tcpIdle
      ensures Valid() && tcpIdle == old(tcpIdle) - {conn}
    {
      tcpIdle := tcpIdle - {conn};
    }

    /** Takes any idle connection off the map, then closes its channel. */
    method ShrinkOne() returns (victim: Option<nat>)
      requires Valid()
      modifies this
      ensures Valid()
      ensures victim == None <==> old(tcpIdle) == map[]
      ensures victim == None ==> tcpIdle == old(tcpIdle) && closes == old(closes)
      ensures victim.Some? ==> victim.value in old(tcpIdle)
                               && tcpIdle == old(tcpIdle) - {victim.value}
                               && closes == old(closes) + [old(tcpIdle)[victim.value]]
    {
      if tcpIdle.Keys == {} {
        assert tcpIdle == map[];
        return None;
      }
      var conn :| conn in tcpIdle.Keys;
      var stop := tcpIdle[conn];
      tcpIdle := tcpIdle - {conn};
      closes := closes + [stop];
      victim := Some(conn);
    }

    /** A batch of `b` shrink calls stops min(b, idle) different idle connections, each through its
        own channel and each once. */
    method ShrinkBatch(b: nat) returns (ghost victims: seq<nat>)
      requires Valid()
      modifies this
      ensures Valid()
      ensures |victims| == if b < |old(tcpIdle)| then b else |old(tcpIdle)|
      ensures Stopped(old(tcpIdle), victims, tcpIdle)
      ensures closes == old(closes) + StopsOf(old(tcpIdle), victims)
    {
      hide StopsOf;
      hide Stopped;
      hide Valid;
      victims := [];
      ghost var idle := tcpIdle;
      NobodyStopped(idle);
      var i := 0;
      while i < b
        invariant Valid() && i <= b
        invariant Stopped(idle, victims, tcpIdle)
        invariant |victims| == if i < |idle| then i else |idle|
        invariant closes == old(closes) + StopsOf(idle, victims)
      {
        ghost var here := tcpIdle;
        var victim := ShrinkOne();
        HowMany(idle, victims, here);
        if victim.Some? {
          OneMoreStopped(idle, victims, here, victim.value);
          victims := victims + [victim.value];
        }
        i := i + 1;
      }
    }
  }

  /** `left` is `idle` without the connections in `victims`, which are different idle ones. */
  ghost predicate Stopped(idle: map<nat, nat>, victims: seq<nat>, left: map<nat, nat>) {
    && Distinct(victims)
    && (forall i :: 0 <= i < |victims| ==> victims[i] in idle && victims[i] !in left)
    && (forall c :: c in left ==> c in idle && left[c] == idle[c])
    && |left| + |victims| == |idle|
  }

  /** The stop channels of `victims`, in their order. */
  function StopsOf(idle: map<nat, nat>, victims: seq<nat>): (stops: seq<nat>)
    ensures |stops| == |victims|
    ensures forall i :: 0 <= i < |victims| && victims[i] in idle ==> stops[i] == idle[victims[i]]
  {
    seq(|victims|, i requires 0 <= i < |victims| => if victims[i] in idle then idle[victims[i]] else 0)
  }

  lemma NobodyStopped(idle: map<nat, nat>)
    ensures Stopped(idle, [], idle) && StopsOf(idle, []) == []
  {
  }

  lemma HowMany(idle: map<nat, nat>, victims: seq<nat>, left: map<nat, nat>)
    requires Stopped(idle, victims, left)
    ensures |left| + |victims| == |idle|
    ensures left == map[] <==> |left| == 0
  {
    assert |left| == 0 ==> left.Keys == {};
    assert left.Keys == {} ==> left == map[];
  }

  lemma OneMoreStopped(idle: map<nat, nat>, victims: seq<nat>, left: map<nat, nat>, v: nat)
    requires Stopped(idle, victims, left) && v in left
    ensures Stopped(idle, victims + [v], left - {v})
    ensures StopsOf(idle, victims + [v]) == StopsOf(idle, victims) + [left[v]]
  {
    assert (left - {v}).Keys == left.Keys - {v};
    assert |left - {v}| == |left| - 1;
  }

  // ---- the drain of tcp mode ----

  class TcpClient {
    const ticker: Ticker
    const pool: TcpPool
    /** activeCount: every worker that has not returned, and among them those told to stop. */
    var active: nat
    var stopped: nat

    constructor (ticker: Ticker, pool: TcpPool, active: nat)
      ensures this.ticker == ticker && this.pool == pool && this.active == active && stopped == 0
    {
      this.ticker, this.pool, this.active, stopped := ticker, pool, active, 0;
    }

    /** A tick over a pool that is due to drain: it stops half the excess, rounded up, if that many
        workers are idle. */
    method DrainTick(now: nat)
      requires pool.Valid() && active >= ticker.cfg.maxIdle && ValidConfig(ticker.cfg)
      requires active > ticker.cfg.maxIdle ==> ticker.overSince.Some? && now > ticker.overSince.value + ticker.cfg.grace
      requires |pool.tcpIdle| >= active - ticker.cfg.maxIdle
      modifies ticker, pool, this`stopped
      ensures pool.Valid() && active == old(active)
      ensures ticker.overSince == if active > ticker.cfg.maxIdle then old(ticker.overSince) else None
      ensures var batch := (active - ticker.cfg.maxIdle + 1) / 2;
              && stopped == old(stopped) + batch
              && |pool.tcpIdle| == |old(pool.tcpIdle)| - batch
              && |pool.closes| == |old(pool.closes)| + batch && old(pool.closes) <= pool.closes
    {
      var _, shrunk := ticker.Tick(now, active);
      var victims := pool.ShrinkBatch(shrunk);
      stopped := stopped + shrunk;
    }

    /** The workers told to stop return. */
    method WorkersLeave()
      requires stopped <= active
      modifies this`active, this`stopped
      ensures active == old(active) - old(stopped) && stopped == 0
    {
      active := active - stopped;
      stopped := 0;
    }

    /** The drain: with the grace period over, no new demand, enough idle workers, and every worker
        told to stop gone before the next tick, an excess E is floor(E / 2^k) after k ticks; exactly
        as many workers were stopped, each through a channel closed once. */
    method Drain(ticks: seq<nat>, since: nat, excess: nat)
      requires pool.Valid() && ValidConfig(ticker.cfg) && stopped == 0
      requires active == ticker.cfg.maxIdle + excess && |pool.tcpIdle| >= excess
      requires ticker.overSince == Some(since)
      requires forall i :: 0 <= i < |ticks| ==> ticks[i] > since + ticker.cfg.grace
      modifies ticker, pool, this
      ensures pool.Valid() && stopped == 0
      ensures active == ticker.cfg.maxIdle + excess / Pow2(|ticks|)
      ensures |pool.tcpIdle| == |old(pool.tcpIdle)| - (old(active) - active)
      ensures |pool.closes| == |old(pool.closes)| + (old(active) - active) && old(pool.closes) <= pool.closes
    {
      hide Pow2;
      ghost var e := excess;
      DivOne(excess);
      var i := 0;
      while i < |ticks|
        invariant 0 <= i <= |ticks| && pool.Valid() && stopped == 0
        invariant e == excess / Pow2(i) && active == ticker.cfg.maxIdle + e && e <= excess
        invariant e > 0 ==> ticker.overSince == Some(since)
        invariant |pool.tcpIdle| == |old(pool.tcpIdle)| - (excess - e)
        invariant |pool.closes| == |old(pool.closes)| + (excess - e) && old(pool.closes) <= pool.closes
      {
        DrainTick(ticks[i]);
        WorkersLeave();
        Halved(excess, i);
        e := e / 2;
        i := i + 1;
      }
    }
  }

  lemma DivOne(e: nat)
    ensures e / Pow2(0) == e
  {
  }

  lemma Halved(e: nat, k: nat)
    ensures e / Pow2(k) / 2 == e / Pow2(k + 1)
  {
    assert Pow2(k + 1) == 2 * Pow2(k);
    hide Pow2;
    HalvedBy(e, Pow2(k));
  }

  lemma HalvedBy(e: nat, p: nat)
    requires p > 0
    ensures e / p / 2 == e / (2 * p)
  {
    var half, t := e / p, e % p;
    HalvedParts(e, p, half, t, half / 2, half % 2);
  }

  lemma HalvedParts(e: nat, p: nat, half: nat, t: nat, q: nat, r: nat)
    requires e == half * p + t && t < p && half == 2 * q + r && r < 2
    ensures e / (2 * p) == q
  {
    assert half * p == q * (2 * p) + r * p;
    if r == 0 {
      DivIs(e, 2 * p, q, t);
    } else {
      DivIs(e, 2 * p, q, p + t);
    }
  }

  // ---- what a shrink closes: tcpmux mode ----

  /** A mux session of the client: open streams, and whether its stop channel is closed already. */
  datatype MuxSession = MuxSession(id: nat, streams: nat, stopped: bool)

  /** Position of the first session without streams. */
  function FirstIdle(sessions: seq<MuxSession>): (at: nat)
    ensures at <= |sessions|
    ensures at < |sessions| ==> sessions[at].streams == 0
    ensures forall i :: 0 <= i < at ==> sessions[i].streams != 0
  {
    if sessions == [] || sessions[0].streams == 0 then 0 else 1 + FirstIdle(sessions[1..])
  }

  datatype Outcome = Shrunk(sessions: seq<MuxSession>) | Panic

  /** One shrinkOne call: closes the stop channel of the first idle session, which stays listed until
      its own worker removes it. Closing a closed channel panics. */
  function ShrinkMux(sessions: seq<MuxSession>): Outcome {
    var at := FirstIdle(sessions);
    if at == |sessions| then Shrunk(sessions)
    else if sessions[at].stopped then Panic
    else Shrunk(sessions[at := sessions[at].(stopped := true)])
  }

  class MuxPool {
    var sessions: seq<MuxSession>

    constructor (sessions: seq<MuxSession>)
      ensures this.sessions == sessions
    {
      this.sessions := sessions;
    }

    method ShrinkOne() returns (panicked: bool)
      modifies this
      ensures match ShrinkMux(old(sessions))
              case Shrunk(s) => !panicked && sessions == s
              case Panic => panicked && sessions == old(sessions)
    {
      panicked := false;
      var i := 0;
      while i < |sessions|
        invariant 0 <= i <= |sessions| && sessions == old(sessions)
        invariant forall k :: 0 <= k < i ==> sessions[k].streams != 0
      {
        if sessions[i].streams == 0 {
          assert FirstIdle(sessions) == i;
          if sessions[i].stopped {
            return true;
          }
          sessions := sessions[i := sessions[i].(stopped := true)];
          return;
        }
        i := i + 1;
      }
    }
  }

  function ShrinkMuxTimes(sessions: seq<MuxSession>, b: nat): Outcome
    decreases b
  {
    if b == 0 then Shrunk(sessions)
    else match ShrinkMux(sessions)
         case Panic => Panic
         case Shrunk(s) => ShrinkMuxTimes(s, b - 1)
  }

  lemma {:induction false} FirstIdleIs(sessions: seq<MuxSession>, at: nat)
    requires at < |sessions| && sessions[at].streams == 0
    requires forall i :: 0 <= i < at ==> sessions[i].streams != 0
    ensures FirstIdle(sessions) == at
    decreases at
  {
    if at > 0 {
      FirstIdleIs(sessions[1..], at - 1);
    }
  }

  lemma StoppedStaysFirst(sessions: seq<MuxSession>)
    requires FirstIdle(sessions) < |sessions| && !sessions[FirstIdle(sessions)].stopped
    ensures ShrinkMux(sessions).Shrunk?
    ensures ShrinkMux(ShrinkMux(sessions).sessions) == Panic
  {
    var at := FirstIdle(sessions);
    FirstIdleIs(sessions[at := sessions[at].(stopped := true)], at);
  }

  /** In tcpmux mode a batch that runs before any worker has delisted its session closes a channel
      twice exactly when some listed session is idle and the batch makes a second call or the first
      idle session had been stopped before. */
  lemma MuxBatchPanicsExactly(sessions: seq<MuxSession>, b: nat)
    ensures ShrinkMuxTimes(sessions, b) == Panic <==>
            && b > 0 && FirstIdle(sessions) < |sessions|
            && (b >= 2 || sessions[FirstIdle(sessions)].stopped)
  {
    if FirstIdle(sessions) == |sessions| {
      NothingIdle(sessions, b);
    } else if b >= 2 && !sessions[FirstIdle(sessions)].stopped {
      StoppedStaysFirst(sessions);
    }
  }

  lemma {:induction false} NothingIdle(sessions: seq<MuxSession>, b: nat)
    requires FirstIdle(sessions) == |sessions|
    ensures ShrinkMuxTimes(sessions, b) == Shrunk(sessions)
  {
    if b > 0 {
      NothingIdle(sessions, b - 1);
    }
  }

  /** An excess of three or more is drained by a batch of two or more, so with one idle session and
      no worker in between, the tick that drains it panics. */
  lemma DrainTickCanPanic(cfg: Config, since: nat, now: nat, n: nat, sessions: seq<MuxSession>)
    requires ValidConfig(cfg) && now > since + cfg.grace && n >= cfg.maxIdle + 3
    requires FirstIdle(sessions) < |sessions|
    ensures TickOf(cfg, Some(since), now, n).1.Shrink?
    ensures ShrinkMuxTimes(sessions, TickOf(cfg, Some(since), now, n).1.batch) == Panic
  {
    MuxBatchPanicsExactly(sessions, TickOf(cfg, Some(since), now, n).1.batch);
  }
}
