/** The read loop of a dialing side (client.go, direct.go): when a sustained bad round-trip time makes
    it give up a connection that has not broken. */
module Degradation {
  import opened Counting

  const MILLISECOND := 1_000_000
  const DEGRADED_RTT_MS := 4000
  const DEGRADED_STREAK := 3

  /** What the loop can read. `timed`: a heartbeat had been sent, so the pong has a round-trip time,
      in nanoseconds. */
  datatype Event = Heartbeat | NeedConn | Pong(timed: bool, rtt: int) | Close | Other | ReadFails

  datatype Reason = Degraded | PeerClosed | Lost

  /** `rtt.Milliseconds() > degradedRTTMs`; the conversion drops the fraction. */
  predicate Slow(rtt: int) { rtt / MILLISECOND > DEGRADED_RTT_MS }

  /** That is a round trip of 4001 milliseconds or more. */
  lemma SlowMeans(rtt: int)
    ensures Slow(rtt) <==> rtt >= 4001 * MILLISECOND
  {
  }

  /** The round-trip times measured, in order; everything else leaves no trace. */
  function Rtts(events: seq<Event>): seq<int> {
    if events == [] then []
    else
      var last := events[|events| - 1];
      Rtts(events[..|events| - 1]) + if last.Pong? && last.timed then [last.rtt] else []
  }

  /** Length of the run of slow round trips at the end. */
  function TrailingSlow(rtts: seq<int>): (k: nat)
    ensures k <= |rtts|
    ensures forall i :: |rtts| - k <= i < |rtts| ==> Slow(rtts[i])
    ensures k < |rtts| ==> !Slow(rtts[|rtts| - k - 1])
  {
    if rtts == [] || !Slow(rtts[|rtts| - 1]) then 0 else 1 + TrailingSlow(rtts[..|rtts| - 1])
  }

  /** NEED_CONN signals among the events. */
  function Wanted(events: seq<Event>): nat {
    if events == [] then 0
    else Wanted(events[..|events| - 1]) + if events[|events| - 1].NeedConn? then 1 else 0
  }

  function WantedAt(events: seq<Event>): set<nat> { set i: nat | i < |events| && events[i].NeedConn? }

  lemma WantedAtMore(init: seq<Event>, last: Event)
    ensures WantedAt(init + [last]) == WantedAt(init) + if last.NeedConn? then {|init|} else {}
  {
  }

  /** That is the number of places where one stands. */
  lemma {:induction false} WantedCounts(events: seq<Event>)
    ensures Wanted(events) == |WantedAt(events)|
  {
    if events == [] {
      assert WantedAt(events) == {};
    } else {
      var init, last := events[..|events| - 1], events[|events| - 1];
      WantedCounts(init);
      assert events == init + [last];
      assert |init| !in WantedAt(init);
      hide WantedAt;
      WantedAtMore(init, last);
    }
  }

  /** The streak the events so far amount to. */
  function Streak(events: seq<Event>): nat { TrailingSlow(Rtts(events)) }

  lemma StreakStep(events: seq<Event>, e: Event)
    ensures Streak(events + [e]) == if e.Pong? && e.timed then (if Slow(e.rtt) then Streak(events) + 1 else 0)
                                    else Streak(events)
  {
    assert (events + [e])[..|events|] == events;
    if e.Pong? && e.timed {
      var rtts := Rtts(events);
      assert (rtts + [e.rtt])[..|rtts|] == rtts;
    } else {
      assert Rtts(events) + [] == Rtts(events);
    }
  }

  /** The loop stops at event `i`. */
  predicate StopsAt(events: seq<Event>, i: nat)
    requires i < |events|
  {
    || events[i].ReadFails? || events[i].Close?
    || (events[i].Pong? && events[i].timed && Streak(events[..i + 1]) >= DEGRADED_STREAK)
  }

  function ReasonAt(e: Event): Reason {
    match e
    case ReadFails => Lost
    case Close => PeerClosed
    case _ => Degraded
  }

  /** The loop read exactly the first `n` events and the last of them stopped it, or it read them
      all without being stopped. */
  ghost predicate StopsFirst(events: seq<Event>, n: nat, stopped: bool, reason: Reason) {
    && n <= |events|
    && (forall i :: 0 <= i < n - (if stopped then 1 else 0) ==> !StopsAt(events, i))
    && (if stopped then n > 0 && StopsAt(events, n - 1) && reason == ReasonAt(events[n - 1])
        else n == |events|)
  }

  lemma StopsFirstUnique(events: seq<Event>, n: nat, s: bool, r: Reason, n': nat, s': bool, r': Reason)
    requires StopsFirst(events, n, s, r) && StopsFirst(events, n', s', r')
    ensures n == n' && s == s' && (s ==> r == r')
  {
    if n > 0 && n' > 0 {
      var i := (if n < n' then n else n') - 1;
      assert StopsAt(events, i) || !StopsAt(events, i);
    }
  }

  lemma Extend(events: seq<Event>, i: nat)
    requires i < |events|
    ensures Streak(events[..i + 1]) == if events[i].Pong? && events[i].timed
                                       then (if Slow(events[i].rtt) then Streak(events[..i]) + 1 else 0)
                                       else Streak(events[..i])
  {
    assert events[..i + 1] == events[..i] + [events[i]];
    StreakStep(events[..i], events[i]);
  }

  lemma NoEventsNoStreak(events: seq<Event>)
    ensures Streak(events[..0]) == 0
  {
    assert events[..0] == [];
  }

  /** Client.runOnce's loop; `wanted` counts the NEED_CONN signals it saw. */
  method ClientReadLoop(events: seq<Event>)
    returns (n: nat, stopped: bool, reason: Reason, badStreak: int, wanted: nat)
    ensures StopsFirst(events, n, stopped, reason)
    ensures badStreak == Streak(events[..n])
    ensures wanted == Wanted(events[..n])
  {
    hide Streak;
    n, stopped, reason, badStreak, wanted := 0, false, Lost, 0, 0;
    NoEventsNoStreak(events);
    while n < |events|
      invariant 0 <= n <= |events| && !stopped
      invariant badStreak == Streak(events[..n]) < DEGRADED_STREAK
      invariant forall i :: 0 <= i < n ==> !StopsAt(events, i)
      invariant wanted == Wanted(events[..n])
    {
      var b := events[n];
      Extend(events, n);
      assert events[..n + 1][..n] == events[..n];
      n := n + 1;
      match b {
        case ReadFails =>
          return n, true, Lost, badStreak, wanted;
        case Heartbeat =>
        case Pong(timed, rtt) =>
          if timed {
            if rtt / MILLISECOND > DEGRADED_RTT_MS {
              badStreak := badStreak + 1;
              if badStreak >= DEGRADED_STREAK {
                return n, true, Degraded, badStreak, wanted;
              }
            } else {
              badStreak := 0;
            }
          }
        case NeedConn =>
          wanted := wanted + 1;
        case Close =>
          return n, true, PeerClosed, badStreak, wanted;
        case Other =>
      }
    }
  }

  /** Server.dialControlOnce's loop: it has no use for NEED_CONN. */
  method ServerReadLoop(events: seq<Event>) returns (n: nat, stopped: bool, reason: Reason, badStreak: int)
    ensures StopsFirst(events, n, stopped, reason)
    ensures badStreak == Streak(events[..n])
  {
    hide Streak;
    n, stopped, reason, badStreak := 0, false, Lost, 0;
    NoEventsNoStreak(events);
    while n < |events|
      invariant 0 <= n <= |events| && !stopped
      invariant badStreak == Streak(events[..n]) < DEGRADED_STREAK
      invariant forall i :: 0 <= i < n ==> !StopsAt(events, i)
    {
      var b := events[n];
      Extend(events, n);
      n := n + 1;
      if b.ReadFails? {
        return n, true, Lost, badStreak;
      } else if b.Close? {
        return n, true, PeerClosed, badStreak;
      } else if b.Pong? && b.timed {
        if RttMs(b.rtt) > DEGRADED_RTT_MS {
          badStreak := badStreak + 1;
          if badStreak >= DEGRADED_STREAK {
            return n, true, Degraded, badStreak;
          }
        } else {
          badStreak := 0;
        }
      }
    }
  }

  function RttMs(rtt: int): int { rtt / MILLISECOND }

  /** A pong with a round-trip time. */
  predicate Timed(e: Event) { e.Pong? && e.timed }

  /** One of 4001 milliseconds or more. */
  predicate SlowPong(e: Event) { Timed(e) && e.rtt >= 4001 * 1_000_000 }

  /** Event `i` and the two timed pongs before it are slow, whatever else lies between them. */
  ghost predicate ThirdSlow(events: seq<Event>, i: nat)
    requires i < |events|
  {
    SlowPong(events[i]) &&
    exists a: nat, b: nat :: a < b < i && SlowPong(events[a]) && SlowPong(events[b])
                             && forall j :: a < j < i && j != b ==> !Timed(events[j])
  }

  /** The last three of the round-trip times measured up to event `i` are slow. */
  ghost predicate LastThreeSlow(events: seq<Event>, i: nat)
    requires i < |events|
  {
    var rtts := Rtts(events[..i + 1]);
    && Timed(events[i]) && |rtts| >= 3
    && Slow(rtts[|rtts| - 1]) && Slow(rtts[|rtts| - 2]) && Slow(rtts[|rtts| - 3])
  }

  function RttOf(e: Event): int { if e.Pong? then e.rtt else 0 }

  lemma {:induction false} RttsSifted(events: seq<Event>) returns (at: seq<nat>)
    ensures Sifted(events, Rtts(events), at, (e: Event) => Timed(e), (e: Event) => RttOf(e))
  {
    hide Sifted;
    if events == [] {
      at := [];
      NothingSifted((e: Event) => Timed(e), (e: Event) => RttOf(e));
    } else {
      var init, last := events[..|events| - 1], events[|events| - 1];
      at := RttsSifted(init);
      SiftMore(init, Rtts(init), at, (e: Event) => Timed(e), (e: Event) => RttOf(e), last);
      at := at + if Timed(last) then [|init|] else [];
      assert events == init + [last];
    }
  }

  lemma ThirdSlowIs(events: seq<Event>, i: nat)
    requires i < |events|
    ensures ThirdSlow(events, i) <==> LastThreeSlow(events, i)
  {
    var seen := events[..i + 1];
    var at := RttsSifted(seen);
    hide Rtts;
    var m := |at|;
    if Timed(events[i]) {
      assert i in at;
      assert at[m - 1] == i;
      if LastThreeSlow(events, i) {
        LastThreeAt(events, at, i, at[m - 3], at[m - 2]);
      }
      if ThirdSlow(events, i) {
        var a: nat, b: nat :| a < b < i && SlowPong(events[a]) && SlowPong(events[b])
                              && forall j :: a < j < i && j != b ==> !Timed(events[j]);
        assert a in at && b in at;
        LastThreeAre(events, at, i, a, b);
      }
    }
  }

  lemma LastThreeAt(events: seq<Event>, at: seq<nat>, i: nat, a: nat, b: nat)
    requires i < |events| && |at| >= 3 && at[|at| - 1] == i && at[|at| - 2] == b && at[|at| - 3] == a
    requires forall x, y :: 0 <= x < y < |at| ==> at[x] < at[y]
    requires forall k: nat :: k <= i && Timed(events[k]) ==> k in at
    ensures a < b < i && forall j :: a < j < i && j != b ==> !Timed(events[j])
  {
    forall j | a < j < i && j != b
      ensures !Timed(events[j])
    {
      NotPlaced(at, i, a, b, j);
    }
  }

  lemma NotPlaced(at: seq<nat>, i: nat, a: nat, b: nat, j: nat)
    requires |at| >= 3 && at[|at| - 1] == i && at[|at| - 2] == b && at[|at| - 3] == a
    requires forall x, y :: 0 <= x < y < |at| ==> at[x] < at[y]
    requires a < j < i && j != b
    ensures j !in at
  {
    forall x | 0 <= x < |at|
      ensures at[x] != j
    {
      if x < |at| - 3 {
        assert at[x] < at[|at| - 3];
      }
    }
  }

  lemma LastThreeAre(events: seq<Event>, at: seq<nat>, i: nat, a: nat, b: nat)
    requires a < b < i < |events| && a in at && b in at && |at| >= 1 && at[|at| - 1] == i
    requires forall x, y :: 0 <= x < y < |at| ==> at[x] < at[y]
    requires forall x :: 0 <= x < |at| ==> at[x] <= i && Timed(events[at[x]])
    requires forall j :: a < j < i && j != b ==> !Timed(events[j])
    ensures |at| >= 3 && at[|at| - 2] == b && at[|at| - 3] == a
  {
    var x :| 0 <= x < |at| && at[x] == a;
    var y :| 0 <= y < |at| && at[y] == b;
    LastButOne(at, y);
    LastButOne(at[..y + 1], x);
  }

  /** Nothing stands between place `x` and the last. */
  lemma LastButOne(at: seq<nat>, x: nat)
    requires x < |at| && at[x] < at[|at| - 1]
    requires forall y, z :: 0 <= y < z < |at| ==> at[y] < at[z]
    requires forall z :: 0 <= z < |at| ==> at[z] <= at[x] || at[|at| - 1] <= at[z]
    ensures x == |at| - 2
  {
    var next := at[x + 1];
  }

  /** What stops the loop, for every sequence of events: a read that fails, the peer's close, and the
      first event that completes three slow round trips in a row; nothing else. */
  lemma StopsExactly(events: seq<Event>, i: nat)
    requires i < |events| && forall j :: 0 <= j < i ==> !StopsAt(events, j)
    ensures StopsAt(events, i) <==> events[i].ReadFails? || events[i].Close? || ThirdSlow(events, i)
    ensures ReasonAt(events[i]) == if events[i].ReadFails? then Lost else if events[i].Close? then PeerClosed else Degraded
  {
    hide ThirdSlow, LastThreeSlow, Streak;
    ThirdSlowIs(events, i);
    ThirdSlowStops(events, i);
  }

  /** Degradation, exactly: both loops stop at the same event for the same reason; they report a
      degraded profile if and only if the event they stop at completes three slow round trips in a
      row, and it is the first one that does. */
  lemma DegradedExactly(events: seq<Event>, n: nat, reason: Reason)
    requires StopsFirst(events, n, true, reason)
    ensures reason == Degraded <==> ThirdSlow(events, n - 1)
    ensures forall i :: 0 <= i < n - 1 ==> !ThirdSlow(events, i)
    ensures reason == Degraded ==> Streak(events[..n]) == DEGRADED_STREAK
  {
    hide Streak;
    forall i | 0 <= i < n - 1
      ensures !ThirdSlow(events, i)
    {
      assert !StopsAt(events, i);
      ThirdSlowStops(events, i);
      ThirdSlowIs(events, i);
    }
    ThirdSlowStops(events, n - 1);
    ThirdSlowIs(events, n - 1);
    hide ThirdSlow, LastThreeSlow;
    StreakBelow(events, n - 1);
    Extend(events, n - 1);
  }

  lemma ThirdSlowStops(events: seq<Event>, i: nat)
    requires i < |events|
    ensures LastThreeSlow(events, i) <==>
            events[i].Pong? && events[i].timed && Streak(events[..i + 1]) >= DEGRADED_STREAK
  {
    ThreeSlow(Rtts(events[..i + 1]));
  }

  lemma ThreeSlow(rtts: seq<int>)
    ensures TrailingSlow(rtts) >= 3 <==>
            |rtts| >= 3 && Slow(rtts[|rtts| - 1]) && Slow(rtts[|rtts| - 2]) && Slow(rtts[|rtts| - 3])
  {
    var k := TrailingSlow(rtts);
    if k >= 3 {
      assert Slow(rtts[|rtts| - 3]);
    }
  }

  /** As long as nothing stopped the loop the streak stays below three. */
  lemma {:induction false} StreakBelow(events: seq<Event>, n: nat)
    requires n <= |events| && forall i :: 0 <= i < n ==> !StopsAt(events, i)
    ensures Streak(events[..n]) < DEGRADED_STREAK
  {
    if n == 0 {
      assert events[..0] == [];
    } else {
      StreakBelow(events, n - 1);
      Extend(events, n - 1);
      assert !StopsAt(events, n - 1);
    }
  }
}
