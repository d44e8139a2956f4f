/** pickSession of server.go: one pass that compacts the session slice in place while it looks for
    the least-loaded session with room. */
module SessionPool {
  import opened Options

  class MuxSession {
    var closed: bool
    var streams: int

    constructor ()
      ensures !closed && streams == 0
    {
      closed, streams := false, 0;
    }
  }

  /** What one pass reads of a session. */
  datatype Reading = Reading(closed: bool, streams: int)

  function Readings(sessions: seq<MuxSession>): (r: seq<Reading>)
    reads sessions
    ensures |r| == |sessions|
    ensures forall i :: 0 <= i < |r| ==> r[i] == Reading(sessions[i].closed, sessions[i].streams)
  {
    seq(|sessions|, i requires 0 <= i < |sessions| reads sessions =>
      Reading(sessions[i].closed, sessions[i].streams))
  }

  /** Positions of the open sessions among the first `n`. */
  function OpenAt(r: seq<Reading>, n: nat): (at: seq<nat>)
    requires n <= |r|
    ensures |at| <= n
    ensures forall i :: 0 <= i < |at| ==> at[i] < n && !r[at[i]].closed
  {
    if n == 0 then [] else OpenAt(r, n - 1) + if r[n - 1].closed then [] else [n - 1]
  }

  function At<T>(items: seq<T>, at: seq<nat>): (picked: seq<T>)
    requires forall i :: 0 <= i < |at| ==> at[i] < |items|
    ensures |picked| == |at|
    ensures forall i :: 0 <= i < |at| ==> picked[i] == items[at[i]]
  {
    seq(|at|, i requires 0 <= i < |at| => items[at[i]])
  }

  /** The open sessions among the first `n`, in order. */
  function Live(sessions: seq<MuxSession>, r: seq<Reading>, n: nat): seq<MuxSession>
    requires |r| == |sessions| && n <= |r|
  {
    At(sessions, OpenAt(r, n))
  }

  lemma {:induction false} OpenAtIncreases(r: seq<Reading>, n: nat)
    requires n <= |r|
    ensures forall i, j :: 0 <= i < j < |OpenAt(r, n)| ==> OpenAt(r, n)[i] < OpenAt(r, n)[j]
  {
    if n > 0 {
      OpenAtIncreases(r, n - 1);
      var before, all := OpenAt(r, n - 1), OpenAt(r, n);
      assert forall i :: 0 <= i < |before| ==> all[i] == before[i] < n - 1;
    }
  }

  lemma {:induction false} OpenAtFinds(r: seq<Reading>, n: nat, k: nat)
    requires k < n <= |r|
    ensures k in OpenAt(r, n) <==> !r[k].closed
  {
    var before := OpenAt(r, n - 1);
    var last: seq<nat> := if r[n - 1].closed then [] else [n - 1];
    var all := OpenAt(r, n);
    assert all == before + last;
    if k < n - 1 {
      OpenAtFinds(r, n - 1, k);
    }
    hide OpenAt;
    InEither(before, last, k);
  }

  lemma InEither(a: seq<nat>, b: seq<nat>, k: nat)
    ensures k in a + b <==> k in a || k in b
  {
  }

  /** The open positions are increasing and none is left out: compaction keeps the order and loses
      only closed sessions. */
  lemma OpenAtExact(r: seq<Reading>, n: nat)
    requires n <= |r|
    ensures forall i, j :: 0 <= i < j < |OpenAt(r, n)| ==> OpenAt(r, n)[i] < OpenAt(r, n)[j]
    ensures forall k: nat :: k < n ==> (k in OpenAt(r, n) <==> !r[k].closed)
  {
    hide OpenAt;
    OpenAtIncreases(r, n);
    forall k: nat | k < n
      ensures k in OpenAt(r, n) <==> !r[k].closed
    {
      OpenAtFinds(r, n, k);
    }
  }

  /** `best` is the first least-loaded session with room among the open ones before `n`, if any. */
  ghost predicate FirstLeastLoaded(r: seq<Reading>, n: nat, max: int, best: Option<nat>) {
    match best
    case None => forall k: nat :: k < n && k < |r| && !r[k].closed ==> r[k].streams >= max
    case Some(b) =>
      && b < n && b < |r| && !r[b].closed && r[b].streams < max
      && (forall k: nat :: k < n && k < |r| && !r[k].closed ==> r[b].streams <= r[k].streams)
      && (forall k: nat :: k < b && !r[k].closed ==> r[b].streams < r[k].streams)
  }

  /** That describes one answer only. */
  lemma FirstLeastLoadedUnique(r: seq<Reading>, max: int, x: Option<nat>, y: Option<nat>)
    requires FirstLeastLoaded(r, |r|, max, x) && FirstLeastLoaded(r, |r|, max, y)
    ensures x == y
  {
    if x.Some? && y.Some? {
      assert !(x.value < y.value) && !(y.value < x.value);
    }
  }

  /** The sessions still read as they did. */
  ghost predicate Same(all: seq<MuxSession>, r: seq<Reading>)
    reads all
  {
    Readings(all) == r
  }

  lemma Now(all: seq<MuxSession>, r: seq<Reading>, i: nat, at: Option<nat>)
    requires Same(all, r) && i < |all|
    ensures r[i] == Reading(all[i].closed, all[i].streams)
    ensures at.Some? && at.value < |all| ==> r[at.value].streams == all[at.value].streams
  {
  }

  /** The array after `i` iterations: the open sessions seen so far, then what is still unread. */
  ghost predicate Compacted(all: seq<MuxSession>, r: seq<Reading>, i: nat,
                            front: seq<MuxSession>, unread: seq<MuxSession>)
  {
    |r| == |all| && i <= |all| && front == Live(all, r, i) && unread == all[i..]
  }

  lemma CompactedStep(all: seq<MuxSession>, r: seq<Reading>, i: nat,
                      front: seq<MuxSession>, unread: seq<MuxSession>)
    requires Compacted(all, r, i, front, unread) && i < |all|
    ensures unread != [] && unread[0] == all[i]
    ensures Compacted(all, r, i + 1, front + (if r[i].closed then [] else [all[i]]), unread[1..])
  {
  }

  /** One more session seen: it takes over exactly if it has room and strictly less load. */
  function Better(r: seq<Reading>, i: nat, max: int, best: Option<nat>): Option<nat>
    requires i < |r| && (best.Some? ==> best.value < |r|)
  {
    if !r[i].closed && r[i].streams < max
       && (best == None || r[i].streams < r[best.value].streams) then Some(i) else best
  }

  lemma NothingSeen(all: seq<MuxSession>, r: seq<Reading>, max: int)
    requires r == Readings(all)
    ensures Same(all, r) && FirstLeastLoaded(r, 0, max, None) && Compacted(all, r, 0, [], all)
  {
  }

  lemma BestStep(r: seq<Reading>, i: nat, max: int, best: Option<nat>)
    requires i < |r| && FirstLeastLoaded(r, i, max, best)
    ensures FirstLeastLoaded(r, i + 1, max, Better(r, i, max, best))
  {
  }

  /** The slice header and its backing array. */
  class Sessions {
    var backing: array<MuxSession>
    var len: nat

    constructor (backing: array<MuxSession>)
      ensures this.backing == backing && len == backing.Length
    {
      this.backing, len := backing, backing.Length;
    }

    ghost predicate Valid()
      reads this
    {
      len <= backing.Length
    }

    function List(): seq<MuxSession>
      requires Valid()
      reads this, backing
    {
      backing[..len]
    }

    /** The kept sessions are appended to `s.sessions[:0]`, that is, written over the front of the
        array being read. */
    method PickSession(max: int) returns (best: MuxSession?, ghost at: Option<nat>)
      requires Valid()
      modifies this`len, backing
      ensures Valid() && backing == old(backing)
      ensures List() == old(Live(List(), Readings(List()), len))
      ensures FirstLeastLoaded(old(Readings(List())), |old(List())|, max, at)
      ensures best == if at == None then null else old(List())[at.value]
    {
      ghost var all, r := List(), Readings(List());
      var live;
      live, best, at := Scan(max, all, r);
      len := live;
    }

    /** The loop: keeps the open sessions at the front and remembers the best one. */
    method Scan(max: int, ghost all: seq<MuxSession>, ghost r: seq<Reading>)
      returns (live: nat, best: MuxSession?, ghost at: Option<nat>)
      requires Valid() && all == List() && r == Readings(all)
      modifies backing
      ensures live <= len && backing[..live] == Live(all, r, |all|)
      ensures FirstLeastLoaded(r, |all|, max, at)
      ensures best == if at == None then null else all[at.value]
    {
      hide Progress;
      hide Live;
      hide FirstLeastLoaded;
      Started(all, r, max);
      live, best, at := 0, null, None;
      var i := 0;
      while i < len
        invariant Progress(all, r, max, i, live, best, at)
      {
        live, best, at := Visit(all, r, max, i, live, best, at);
        i := i + 1;
      }
      Finished(all, r, max, i, live, best, at);
    }

    lemma Started(all: seq<MuxSession>, r: seq<Reading>, max: int)
      requires Valid() && all == List() && r == Readings(all)
      ensures Progress(all, r, max, 0, 0, null, None)
    {
      NothingSeen(all, r, max);
    }

    lemma Finished(all: seq<MuxSession>, r: seq<Reading>, max: int, i: nat,
                   live: nat, best: MuxSession?, at: Option<nat>)
      requires i >= len && Progress(all, r, max, i, live, best, at)
      ensures live <= len && backing[..live] == Live(all, r, |all|)
      ensures FirstLeastLoaded(r, |all|, max, at)
      ensures at.Some? ==> at.value < |all|
      ensures best == if at == None then null else all[at.value]
    {
    }

    /** Where the loop stands after `i` iterations, with `live` sessions kept. */
    ghost predicate Progress(all: seq<MuxSession>, r: seq<Reading>, max: int, i: nat,
                             live: nat, best: MuxSession?, at: Option<nat>)
      reads this, backing, all
    {
      && len == |all| && Valid() && live <= i <= len
      && Compacted(all, r, i, backing[..live], backing[i..len])
      && Same(all, r) && FirstLeastLoaded(r, i, max, at)
      && (at.Some? ==> at.value < i)
      && best == if at == None then null else all[at.value]
    }

    /** One iteration. */
    method Visit(ghost all: seq<MuxSession>, ghost r: seq<Reading>, max: int, i: nat,
                 live: nat, best: MuxSession?, ghost at: Option<nat>)
      returns (kept: nat, choice: MuxSession?, ghost now: Option<nat>)
      requires i < len && Progress(all, r, max, i, live, best, at)
      modifies backing
      ensures Progress(all, r, max, i + 1, kept, choice, now)
    {
      hide FirstLeastLoaded;
      hide Compacted;
      hide Same;
      Now(all, r, i, at);
      CompactedStep(all, r, i, backing[..live], backing[i..len]);
      BestStep(r, i, max, at);
      now := Better(r, i, max, at);
      ghost var front, unread := backing[..live], backing[i..len];
      var ms := backing[i];
      assert ms == unread[0];
      kept, choice := live, best;
      if !ms.closed {
        backing[live] := ms; // live = append(live, ms)
        kept := live + 1;
        if ms.streams < max {
          if best == null || ms.streams < best.streams {
            choice := ms;
          }
        }
      }
      assert backing[..kept] == front + if r[i].closed then [] else [all[i]];
      assert backing[i + 1..len] == unread[1..];
    }
  }
}
