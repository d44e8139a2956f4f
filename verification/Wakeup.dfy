/** Waiting for a mux session: the notifier of util.go, and the loop of obtainSession (server.go)
    that looks, asks for more and then sleeps until the next broadcast or for 300 milliseconds. One
    step per look, list operation, broadcast and call of `wait`. */
module Wakeup {
  const POLL: nat := 300 // milliseconds

  // ---- the notifier ----

  /** Channels are numbered as they are made. */
  class Notifier {
    var ch: nat
    var closed: set<nat>

    /** The closed channels are exactly the ones before the current one. */
    ghost predicate Valid()
      reads this
    {
      forall c: nat :: c in closed <==> c < ch
    }

    constructor ()
      ensures Valid() && ch == 0
    {
      ch, closed := 0, {};
    }

    method Wait() returns (c: nat)
      requires Valid()
      ensures c == ch && c !in closed
    {
      c := ch;
    }

    /** The channel closed here is the one every waiter since the last broadcast holds, and it was
        not closed before. */
    method Broadcast()
      requires Valid()
      modifies this
      ensures Valid() && ch == old(ch) + 1
      ensures old(ch) !in old(closed) && closed == old(closed) + {old(ch)}
    {
      closed := closed + {ch};
      ch := ch + 1;
    }
  }

  // ---- callers, admissions and releases together ----

  /** Looking; found nothing and will ask and then wait; asleep on a channel since a time; served. */
  datatype Caller = Looking | Missed | Asleep(ch: nat, since: nat) | Served

  /** `free`: stream slots there for the taking. `announcing`: admissions that have listed their
      session and not called broadcast yet. `overlooked`: callers for whom, since they
      last looked, something became free and nothing will wake them for it. */
  datatype State = State(free: nat, ch: nat, announcing: set<nat>, callers: map<nat, Caller>,
                         overlooked: set<nat>, now: nat)

  const INIT := State(0, 0, {}, map[], {}, 0)

  datatype Step =
    | Arrive(c: nat) | Look(c: nat) | Wait(c: nat) | Wake(c: nat)
    | List(a: nat) | Broadcast(a: nat) | FreeSlot | LoseSlot | Tick

  /** Not asleep yet, and past the look: a broadcast now closes a channel they do not hold. */
  function Between(callers: map<nat, Caller>): set<nat> {
    set c | c in callers && callers[c].Missed?
  }

  function Resting(callers: map<nat, Caller>): set<nat> {
    set c | c in callers && (callers[c].Missed? || callers[c].Asleep?)
  }

  predicate Enabled(s: State, step: Step) {
    match step
    case Arrive(c) => c !in s.callers
    case Look(c) => c in s.callers && s.callers[c].Looking?
    case Wait(c) => c in s.callers && s.callers[c].Missed?
    case Wake(c) => c in s.callers && s.callers[c].Asleep?
                    && (s.callers[c].ch < s.ch || s.now >= s.callers[c].since + POLL)
    case List(a) => a !in s.announcing
    case Broadcast(a) => a in s.announcing
    case FreeSlot => true
    case LoseSlot => s.free > 0
    case Tick => true
  }

  function Apply(s: State, step: Step): State
    requires Enabled(s, step)
  {
    match step
    case Arrive(c) => s.(callers := s.callers[c := Looking])
    case Look(c) =>
      if s.free > 0 then s.(free := s.free - 1, callers := s.callers[c := Served], overlooked := s.overlooked - {c})
      else s.(callers := s.callers[c := Missed], overlooked := s.overlooked - {c})
    case Wait(c) => s.(callers := s.callers[c := Asleep(s.ch, s.now)])
    case Wake(c) => s.(callers := s.callers[c := Looking])
    case List(a) => s.(free := s.free + 1, announcing := s.announcing + {a})
    case Broadcast(a) =>
      s.(ch := s.ch + 1, announcing := s.announcing - {a}, overlooked := s.overlooked + Between(s.callers))
    case FreeSlot => s.(free := s.free + 1, overlooked := s.overlooked + Resting(s.callers))
    case LoseSlot => s.(free := s.free - 1)
    case Tick => s.(now := s.now + 1)
  }

  predicate IsRun(s: State, steps: seq<Step>)
    decreases |steps|
  {
    steps == [] || (Enabled(s, steps[0]) && IsRun(Apply(s, steps[0]), steps[1..]))
  }

  function Exec(s: State, steps: seq<Step>): State
    requires IsRun(s, steps)
    decreases |steps|
  {
    if steps == [] then s else Exec(Apply(s, steps[0]), steps[1..])
  }

  /** Nothing wakes this caller but its timer. */
  predicate SleepsOn(s: State, c: nat) {
    c in s.callers && s.callers[c].Asleep? && s.callers[c].ch == s.ch
  }

  ghost predicate Inv(s: State) {
    && (forall c :: c in s.callers && s.callers[c].Asleep? ==>
          s.callers[c].ch <= s.ch && s.callers[c].since <= s.now)
    && (s.free > 0 && s.announcing == {} ==>
          forall c :: c in s.callers && (s.callers[c].Missed? || SleepsOn(s, c)) ==> c in s.overlooked)
  }

  lemma InvStep(s: State, step: Step)
    requires Inv(s) && Enabled(s, step)
    ensures Inv(Apply(s, step))
  {
  }

  lemma {:induction false} InvRun(s: State, steps: seq<Step>)
    requires Inv(s) && IsRun(s, steps)
    ensures Inv(Exec(s, steps))
    decreases |steps|
  {
    hide Inv;
    if steps != [] {
      InvStep(s, steps[0]);
      InvRun(Apply(s, steps[0]), steps[1..]);
    }
  }

  // ---- what is overlooked, and what is not ----

  /** Between its failing look and now, while `c` did not look again, an admission announced itself
      before `c` asked for the channel, or a slot was freed, which nobody announces. */
  predicate Overlooks(s: State, steps: seq<Step>, c: nat)
    requires IsRun(s, steps)
    decreases |steps|
  {
    steps != [] &&
    (Overlooks(Apply(s, steps[0]), steps[1..], c)
     || (c in s.callers && s.callers[c].Missed? && (steps[0].Broadcast? || steps[0].FreeSlot?))
     || (c in s.callers && s.callers[c].Asleep? && steps[0].FreeSlot?))
  }

  lemma {:induction false} OverlookedMeans(s: State, steps: seq<Step>, c: nat)
    requires IsRun(s, steps) && Look(c) !in steps
    ensures c in Exec(s, steps).overlooked <==> c in s.overlooked || Overlooks(s, steps, c)
    decreases |steps|
  {
    if steps != [] {
      assert steps[0] in steps && Look(c) !in steps[1..];
      OverlookedMeans(Apply(s, steps[0]), steps[1..], c);
    }
  }

  /** The wakeups that get lost. Take any run, a look of caller `c` that finds nothing, and
      any steps after it in which `c` does not look again. If `c` now sleeps although something is
      free and no announcement of it is due, then an admission was announced between its look and its
      wait, or a slot was freed: those are the only two ways. */
  lemma LostWakeups(before: seq<Step>, c: nat, after: seq<Step>)
    requires IsRun(INIT, before) && Enabled(Exec(INIT, before), Look(c)) && Exec(INIT, before).free == 0
    requires IsRun(Apply(Exec(INIT, before), Look(c)), after) && Look(c) !in after
    ensures var looked := Apply(Exec(INIT, before), Look(c));
            var s := Exec(looked, after);
            SleepsOn(s, c) && s.free > 0 && s.announcing == {} ==> Overlooks(looked, after, c)
  {
    var read := Exec(INIT, before);
    var looked := Apply(read, Look(c));
    InvRun(INIT, before);
    InvStep(read, Look(c));
    InvRun(looked, after);
    OverlookedMeans(looked, after, c);
  }

  /** A broadcast wakes everyone asleep at that moment, and nobody stays asleep past the poll. */
  lemma EveryoneWakes(before: seq<Step>, a: nat, c: nat)
    requires IsRun(INIT, before) && c in Exec(INIT, before).callers && Exec(INIT, before).callers[c].Asleep?
    ensures var s := Exec(INIT, before);
            && (Enabled(s, Broadcast(a)) ==> Enabled(Apply(s, Broadcast(a)), Wake(c)))
            && (s.now >= s.callers[c].since + POLL ==> Enabled(s, Wake(c)))
            && (Enabled(s, Wake(c)) <==> !SleepsOn(s, c) || s.now >= s.callers[c].since + POLL)
  {
    InvRun(INIT, before);
  }

  // ---- slots and sleep, over runs ----

  function Count(steps: seq<Step>, kind: Step -> bool): nat {
    if steps == [] then 0 else (if kind(steps[0]) then 1 else 0) + Count(steps[1..], kind)
  }

  const LISTS: Step -> bool := (x: Step) => x.List?
  const BROADCASTS: Step -> bool := (x: Step) => x.Broadcast?
  const GAINS: Step -> bool := (x: Step) => x.List? || x.FreeSlot?
  const LOSSES: Step -> bool := (x: Step) => x.LoseSlot?
  const TICKS: Step -> bool := (x: Step) => x.Tick?

  function ServedAmong(callers: map<nat, Caller>): set<nat> { set c | c in callers && callers[c].Served? }

  lemma ServedStep(s: State, step: Step)
    requires Enabled(s, step)
    ensures |ServedAmong(Apply(s, step).callers)|
            == |ServedAmong(s.callers)| + if step.Look? && s.free > 0 then 1 else 0
  {
    var t := Apply(s, step);
    if step.Look? && s.free > 0 {
      assert ServedAmong(t.callers) == ServedAmong(s.callers) + {step.c};
    } else {
      assert ServedAmong(t.callers) == ServedAmong(s.callers);
    }
  }

  /** Every slot is accounted for: what was listed or freed was taken by a caller that looked, was lost,
      or is still free; no slot serves two callers. Announcements and the channel count likewise. */
  lemma {:induction false} SlotsAccounted(s: State, steps: seq<Step>)
    requires IsRun(s, steps)
    ensures var t := Exec(s, steps);
            && |ServedAmong(t.callers)| + t.free + Count(steps, LOSSES)
               == |ServedAmong(s.callers)| + s.free + Count(steps, GAINS)
            && |t.announcing| + Count(steps, BROADCASTS) == |s.announcing| + Count(steps, LISTS)
            && t.ch == s.ch + Count(steps, BROADCASTS) && t.now == s.now + Count(steps, TICKS)
    decreases |steps|
  {
    if steps != [] {
      ServedStep(s, steps[0]);
      CountersStep(s, steps[0]);
      hide Apply, Enabled, ServedAmong;
      SlotsAccounted(Apply(s, steps[0]), steps[1..]);
    }
  }

  lemma CountersStep(s: State, step: Step)
    requires Enabled(s, step)
    ensures var t := Apply(s, step);
            && t.free + (if LOSSES(step) then 1 else 0) + (if step.Look? && s.free > 0 then 1 else 0)
               == s.free + (if GAINS(step) then 1 else 0)
            && |t.announcing| + (if BROADCASTS(step) then 1 else 0) == |s.announcing| + (if LISTS(step) then 1 else 0)
            && t.ch == s.ch + (if BROADCASTS(step) then 1 else 0) && t.now == s.now + (if TICKS(step) then 1 else 0)
  {
  }

  /** Asleep on channel `ch` since `since` for as long as it does not wake. */
  lemma {:induction false} SleepStays(s: State, steps: seq<Step>, c: nat, ch: nat, since: nat)
    requires IsRun(s, steps) && Wake(c) !in steps && c in s.callers && s.callers[c] == Asleep(ch, since)
    ensures c in Exec(s, steps).callers && Exec(s, steps).callers[c] == Asleep(ch, since)
    decreases |steps|
  {
    if steps != [] {
      assert steps[0] in steps && Wake(c) !in steps[1..];
      assert c in Apply(s, steps[0]).callers && Apply(s, steps[0]).callers[c] == Asleep(ch, since);
      hide Apply, Enabled;
      SleepStays(Apply(s, steps[0]), steps[1..], c, ch, since);
    }
  }

  /** How long a caller sleeps, over every run: having called `wait`, it can wake exactly when a
      broadcast has come since or 300 milliseconds have passed; and then it looks again. */
  lemma SleepsExactly(before: seq<Step>, c: nat, after: seq<Step>)
    requires IsRun(INIT, before) && Enabled(Exec(INIT, before), Wait(c))
    requires IsRun(Apply(Exec(INIT, before), Wait(c)), after) && Wake(c) !in after
    ensures var t := Exec(Apply(Exec(INIT, before), Wait(c)), after);
            && (Enabled(t, Wake(c)) <==> Count(after, BROADCASTS) > 0 || Count(after, TICKS) >= 300)
            && (Enabled(t, Wake(c)) ==> Enabled(Apply(t, Wake(c)), Look(c)))
  {
    var s := Exec(INIT, before);
    var r := Apply(s, Wait(c));
    assert r.callers[c] == Asleep(s.ch, s.now);
    SleepStays(r, after, c, s.ch, s.now);
    SlotsAccounted(r, after);
  }

  /** Over every run a caller can look, wait after a look in vain, and look again after waking; an
      admission can announce itself. */
  lemma NobodyIsStuck(s: State, c: nat, a: nat)
    ensures c in s.callers ==>
              && (s.callers[c].Looking? <==> Enabled(s, Look(c)))
              && (s.callers[c].Missed? <==> Enabled(s, Wait(c)))
    ensures Enabled(s, Broadcast(a)) <==> a in s.announcing
    ensures Enabled(s, Look(c)) ==>
              (Apply(s, Look(c)).callers[c].Served? <==> s.free > 0) && (Apply(s, Look(c)).callers[c].Missed? <==> s.free == 0)
  {
  }

  /** The channel is asked for only after the look, so a broadcast can be missed: the caller sleeps
      next to a free session and only its timer will wake it. */
  lemma BroadcastCanBeMissed() returns (steps: seq<Step>)
    ensures IsRun(INIT, steps)
    ensures var s := Exec(INIT, steps);
            SleepsOn(s, 0) && s.free == 1 && s.announcing == {} && !Enabled(s, Wake(0))
  {
    var s1 := Apply(INIT, Arrive(0));
    var s2 := Apply(s1, Look(0));
    var s3 := Apply(s2, List(0));
    var s4 := Apply(s3, Broadcast(0));
    Prefixed(s4, Wait(0), []);
    Prefixed(s3, Broadcast(0), [Wait(0)] + []);
    Prefixed(s2, List(0), [Broadcast(0)] + ([Wait(0)] + []));
    Prefixed(s1, Look(0), [List(0)] + ([Broadcast(0)] + ([Wait(0)] + [])));
    steps := [Arrive(0)] + ([Look(0)] + ([List(0)] + ([Broadcast(0)] + ([Wait(0)] + []))));
    Prefixed(INIT, Arrive(0), steps[1..]);
    var s := Apply(s4, Wait(0));
    assert s4.announcing == {};
  }

  lemma Prefixed(s: State, step: Step, rest: seq<Step>)
    requires Enabled(s, step) && IsRun(Apply(s, step), rest)
    ensures IsRun(s, [step] + rest)
    ensures Exec(s, [step] + rest) == Exec(Apply(s, step), rest)
  {
    assert ([step] + rest)[1..] == rest;
  }
}
