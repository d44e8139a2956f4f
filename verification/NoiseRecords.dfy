/** The record layer of noise.go as functions on bytes: how a plaintext is cut into sealed records
    and what a reader gets back from any prefix of them. */
module NoiseRecords {
  import opened Bytes
  import opened Options

  /** An authenticated cipher under a key and a record number; only its interface is modelled. */
  datatype Aead = Aead(seal: (nat, nat, Bytes) -> Bytes, open: (nat, nat, Bytes) -> Option<Bytes>)

  const TAG_SIZE := 16
  const MAX_RECORD := 65535 - 16

  ghost predicate Sound(a: Aead) {
    && (forall k: nat, n: nat, p: Bytes {:trigger a.seal(k, n, p)} ::
          |a.seal(k, n, p)| == |p| + TAG_SIZE && a.open(k, n, a.seal(k, n, p)) == Some(p))
    && (forall k: nat, n: nat, f: Bytes {:trigger a.open(k, n, f)} ::
          a.open(k, n, f).Some? ==> |a.open(k, n, f).value| + TAG_SIZE == |f|)
  }

  /** The hypothesis on the cipher can be met: appending sixteen zero bytes meets it. */
  lemma SoundAeadExists() returns (a: Aead)
    ensures Sound(a)
  {
    var zeros: Bytes := seq(TAG_SIZE, i => 0);
    a := Aead((k: nat, n: nat, p: Bytes) => p + zeros,
              (k: nat, n: nat, f: Bytes) =>
                if |f| < TAG_SIZE then None else Some(f[..|f| - TAG_SIZE]));
    forall k: nat, n: nat, p: Bytes
      ensures |a.seal(k, n, p)| == |p| + TAG_SIZE && a.open(k, n, a.seal(k, n, p)) == Some(p)
    {
      assert (p + zeros)[..|p|] == p;
    }
  }

  /** Split of the two directional cipher states after the handshake: (send, recv). */
  function SessionKeys(initiator: bool): (nat, nat) {
    if initiator then (0, 1) else (1, 0)
  }

  /** What one side sends under, the other receives under, and the directions never share a key. */
  lemma KeysPair(initiator: bool)
    ensures SessionKeys(initiator).0 == SessionKeys(!initiator).1
    ensures SessionKeys(initiator).1 == SessionKeys(!initiator).0
    ensures SessionKeys(initiator).0 != SessionKeys(initiator).1
  {
  }

  // ---- writing ----

  function Frame(msg: Bytes): (f: Bytes)
    ensures |f| == 2 + |msg|
  {
    PutUint16(|msg|) + msg
  }

  function FirstChunk(p: Bytes): (c: Bytes)
    ensures c == if |p| > MAX_RECORD then p[..MAX_RECORD] else p
  {
    if |p| > MAX_RECORD then p[..MAX_RECORD] else p
  }

  /** The plaintext of each record one Write sends. */
  function Chunks(p: Bytes): (cs: seq<Bytes>)
    decreases |p|
  {
    if p == [] then [] else [FirstChunk(p)] + Chunks(p[|FirstChunk(p)|..])
  }

  /** The wire image of consecutive records numbered from `n`. */
  function SealAll(a: Aead, key: nat, n: nat, records: seq<Bytes>): (wire: Bytes)
    decreases |records|
  {
    if records == [] then []
    else Frame(a.seal(key, n, records[0])) + SealAll(a, key, n + 1, records[1..])
  }

  ghost predicate WellSized(records: seq<Bytes>) {
    forall i :: 0 <= i < |records| ==> 0 < |records[i]| <= MAX_RECORD
  }

  /** A Write sends its bytes in order and loses none; no record is empty and every record with its
      tag still fits the 16-bit length, so the length field never wraps. */
  lemma {:induction false} ChunksCover(p: Bytes)
    ensures Concat(Chunks(p)) == p
    ensures WellSized(Chunks(p))
    ensures |Chunks(p)| == (|p| + MAX_RECORD - 1) / MAX_RECORD
    decreases |p|
  {
    if p != [] {
      var k := |FirstChunk(p)|;
      ChunksCover(p[k..]);
      assert p == p[..k] + p[k..];
    }
  }

  lemma SealedLengthFits(a: Aead, key: nat, n: nat, record: Bytes)
    requires Sound(a) && |record| <= MAX_RECORD
    ensures Uint16(Frame(a.seal(key, n, record))[..2]) == |a.seal(key, n, record)| <= MAX_UINT16
  {
    var sealed := a.seal(key, n, record);
    Uint16RoundTrip(|sealed|);
    assert Frame(sealed)[..2] == PutUint16(|sealed|);
  }

  lemma {:induction false} SealAllAppend(a: Aead, key: nat, n: nat, x: seq<Bytes>, y: seq<Bytes>)
    ensures SealAll(a, key, n, x + y) == SealAll(a, key, n, x) + SealAll(a, key, n + |x|, y)
    decreases |x|
  {
    if x == [] {
      assert x + y == y;
    } else {
      assert (x + y)[1..] == x[1..] + y;
      SealAllAppend(a, key, n + 1, x[1..], y);
    }
  }

  /** Sealing one more record after those already sent. */
  lemma SealOneMore(a: Aead, key: nat, n: nat, done: seq<Bytes>, chunk: Bytes)
    ensures SealAll(a, key, n, done + [chunk])
            == SealAll(a, key, n, done) + Frame(a.seal(key, n + |done|, chunk))
  {
    var last: seq<Bytes> := [chunk];
    SealAllAppend(a, key, n, done, last);
    assert last[1..] == [];
  }

  // ---- reading ----

  datatype Unframed = Whole(frame: Bytes, rest: Bytes) | Incomplete

  /** `readFrame` on the bytes that have arrived. */
  function Unframe(wire: Bytes): (u: Unframed)
    ensures u.Whole? ==> |u.frame| + |u.rest| + 2 == |wire|
  {
    if |wire| < 2 then Incomplete
    else
      var n := Uint16(wire[..2]);
      if |wire| < 2 + n then Incomplete else Whole(wire[2..2 + n], wire[2 + n..])
  }

  /** The plaintext that repeated reads can still take from `wire`, starting at record `n`: every
      leading record that is complete and authentic. */
  function OpenAll(a: Aead, key: nat, n: nat, wire: Bytes): (plain: Bytes)
    decreases |wire|
  {
    match Unframe(wire)
    case Incomplete => []
    case Whole(frame, rest) =>
      match a.open(key, n, frame)
      case None => []
      case Some(p) => p + OpenAll(a, key, n + 1, rest)
  }

  lemma UnframeFrame(msg: Bytes, rest: Bytes)
    requires |msg| <= MAX_UINT16
    ensures Unframe(Frame(msg) + rest) == Whole(msg, rest)
  {
    var wire := Frame(msg) + rest;
    Uint16RoundTrip(|msg|);
    assert wire[..2] == PutUint16(|msg|);
    assert wire[2..2 + |msg|] == msg;
    assert wire[2 + |msg|..] == rest;
  }

  /** Round trip of the record layer: a reader at record `n` recovers exactly the plaintexts sealed
      from record `n` on. */
  lemma {:induction false} OpenSealed(a: Aead, key: nat, n: nat, records: seq<Bytes>)
    requires Sound(a) && WellSized(records)
    ensures OpenAll(a, key, n, SealAll(a, key, n, records)) == Concat(records)
    decreases |records|
  {
    if records != [] {
      var sealed := a.seal(key, n, records[0]);
      UnframeFrame(sealed, SealAll(a, key, n + 1, records[1..]));
      OpenSealed(a, key, n + 1, records[1..]);
    }
  }

  /** Fewer bytes on the wire never show a reader anything but less of the same plaintext. */
  lemma {:induction false} OpenAllMonotone(a: Aead, key: nat, n: nat, wire: Bytes, more: Bytes)
    ensures OpenAll(a, key, n, wire) <= OpenAll(a, key, n, wire + more)
    decreases |wire|
  {
    var u := Unframe(wire);
    if u.Whole? {
      var len := Uint16(wire[..2]);
      var both := wire + more;
      assert both[..2] == wire[..2];
      assert both[2..2 + len] == wire[2..2 + len];
      assert both[2 + len..] == u.rest + more;
      if a.open(key, n, u.frame).Some? {
        OpenAllMonotone(a, key, n + 1, u.rest, more);
      }
    }
  }

  // ---- one direction of a connection, over whole runs ----

  /** Sender's record counter, bytes in flight, receiver's record counter and undelivered bytes. */
  datatype Link = Link(sent: nat, wire: Bytes, received: nat, pending: Bytes)

  datatype Op = WriteOp(p: Bytes) | ReadOp(max: nat)

  /** What a Read hands over. `Blocked`: no complete record has arrived; `Rejected`: one arrived
      that does not authenticate. */
  datatype ReadResult = Got(data: Bytes) | Blocked | Rejected

  function WriteLink(a: Aead, key: nat, l: Link, p: Bytes): Link {
    l.(sent := l.sent + |Chunks(p)|, wire := l.wire + SealAll(a, key, l.sent, Chunks(p)))
  }

  function TakePending(pending: Bytes, max: nat): (Bytes, Bytes) {
    var k := if max < |pending| then max else |pending|;
    (pending[..k], pending[k..])
  }

  function ReadLink(a: Aead, key: nat, l: Link, max: nat): (Link, ReadResult) {
    if l.pending != [] then
      var (data, rest) := TakePending(l.pending, max);
      (l.(pending := rest), Got(data))
    else
      match Unframe(l.wire)
      case Incomplete => (l, Blocked)
      case Whole(frame, wire) =>
        match a.open(key, l.received, frame)
        case None => (l.(wire := wire), Rejected)
        case Some(p) =>
          var (data, rest) := TakePending(p, max);
          (l.(wire := wire, received := l.received + 1, pending := rest), Got(data))
  }

  datatype Run = Run(link: Link, written: Bytes, read: Bytes, rejected: bool)

  const START := Run(Link(0, [], 0, []), [], [], false)

  function Step(a: Aead, key: nat, r: Run, op: Op): Run {
    match op
    case WriteOp(p) => r.(link := WriteLink(a, key, r.link, p), written := r.written + p)
    case ReadOp(max) =>
      var (l, result) := ReadLink(a, key, r.link, max);
      match result
      case Got(data) => r.(link := l, read := r.read + data)
      case Blocked => r.(link := l)
      case Rejected => r.(link := l, rejected := true)
  }

  function Exec(a: Aead, key: nat, ops: seq<Op>): Run {
    if ops == [] then START else Step(a, key, Exec(a, key, ops[..|ops| - 1]), ops[|ops| - 1])
  }

  /** The records in flight are exactly `flying`, and together with `pending` and what was read
      they make up everything written. */
  ghost predicate Explains(a: Aead, key: nat, r: Run, flying: seq<Bytes>) {
    && WellSized(flying)
    && r.link.sent == r.link.received + |flying|
    && r.link.wire == SealAll(a, key, r.link.received, flying)
    && r.written == r.read + r.link.pending + Concat(flying)
    && !r.rejected
  }

  lemma WriteKeeps(a: Aead, key: nat, r: Run, flying: seq<Bytes>, p: Bytes)
    requires Sound(a) && Explains(a, key, r, flying)
    ensures Explains(a, key, Step(a, key, r, WriteOp(p)), flying + Chunks(p))
  {
    var cs := Chunks(p);
    ChunksCover(p);
    SealAllAppend(a, key, r.link.received, flying, cs);
    WellSizedAppend(flying, cs);
    ConcatAppend(flying, cs);
    Associate(r.read + r.link.pending, Concat(flying), p);
  }

  lemma WellSizedAppend(x: seq<Bytes>, y: seq<Bytes>)
    requires WellSized(x) && WellSized(y)
    ensures WellSized(x + y)
  {
  }

  lemma Associate(x: Bytes, y: Bytes, z: Bytes)
    ensures (x + y) + z == x + (y + z)
  {
  }

  /** The plaintext a receiver still has in front of it. */
  function Stock(a: Aead, key: nat, l: Link): Bytes {
    l.pending + OpenAll(a, key, l.received, l.wire)
  }

  lemma PendingTaken(pending: Bytes, max: nat)
    ensures var (data, rest) := TakePending(pending, max);
            data + rest == pending && |data| <= max && (max > 0 && pending != [] ==> data != [])
  {
  }

  lemma RecordOpened(a: Aead, key: nat, n: nat, wire: Bytes)
    ensures var u := Unframe(wire);
            OpenAll(a, key, n, wire) ==
            if u.Incomplete? || a.open(key, n, u.frame).None? then []
            else a.open(key, n, u.frame).value + OpenAll(a, key, n + 1, u.rest)
  {
  }

  /** One Read takes bytes off the front of the stock and nothing else, gets closer to the end of
      the wire, and fails only when the stock is empty. */
  lemma ReadTakesFromStock(a: Aead, key: nat, l: Link, max: nat)
    requires Sound(a)
    ensures var (l', result) := ReadLink(a, key, l, max);
            if result.Got? then
              && |result.data| <= max
              && Stock(a, key, l) == result.data + Stock(a, key, l')
              && (max > 0 ==> |l'.pending| + |l'.wire| < |l.pending| + |l.wire|)
            else l.pending == [] && Stock(a, key, l) == []
  {
    var (l', result) := ReadLink(a, key, l, max);
    RecordOpened(a, key, l.received, l.wire);
    hide OpenAll, TakePending;
    if l.pending != [] {
      PendingTaken(l.pending, max);
      Associate(result.data, l'.pending, OpenAll(a, key, l.received, l.wire));
    } else if Unframe(l.wire).Whole? && result.Got? {
      var p := a.open(key, l.received, Unframe(l.wire).frame).value;
      PendingTaken(p, max);
      Associate(result.data, l'.pending, OpenAll(a, key, l'.received, l'.wire));
    }
  }

  lemma ReadKeeps(a: Aead, key: nat, r: Run, flying: seq<Bytes>, max: nat) returns (left: seq<Bytes>)
    requires Sound(a) && Explains(a, key, r, flying)
    ensures Explains(a, key, Step(a, key, r, ReadOp(max)), left)
    ensures max > 0 && r.read != r.written
            ==> |Step(a, key, r, ReadOp(max)).read| > |r.read|
  {
    var (l, result) := ReadLink(a, key, r.link, max);
    if r.link.pending != [] {
      left := flying;
      Regroup(r.read, result.data, l.pending, r.link.pending, Concat(flying));
    } else if flying == [] {
      left := [];
    } else {
      left := flying[1..];
      var sealed := a.seal(key, r.link.received, flying[0]);
      UnframeFrame(sealed, SealAll(a, key, r.link.received + 1, left));
      Regroup(r.read, result.data, l.pending, flying[0], Concat(left));
      assert WellSized(left);
    }
  }

  lemma Regroup(read: Bytes, data: Bytes, rest: Bytes, front: Bytes, tail: Bytes)
    requires |data| <= |front| && data == front[..|data|] && rest == front[|data|..]
    ensures read + front + tail == (read + data) + rest + tail
    ensures read + [] + (front + tail) == (read + data) + rest + tail
  {
    assert front == data + rest;
  }

  lemma {:induction false} RunExplained(a: Aead, key: nat, ops: seq<Op>) returns (flying: seq<Bytes>)
    requires Sound(a)
    ensures Explains(a, key, Exec(a, key, ops), flying)
  {
    if ops == [] {
      flying := [];
    } else {
      var before := ops[..|ops| - 1];
      var earlier := RunExplained(a, key, before);
      match ops[|ops| - 1]
      case WriteOp(p) =>
        WriteKeeps(a, key, Exec(a, key, before), earlier, p);
        flying := earlier + Chunks(p);
      case ReadOp(max) =>
        flying := ReadKeeps(a, key, Exec(a, key, before), earlier, max);
    }
  }

  /** The Noise connection refines a byte stream. Whatever is written and read, in whatever sizes
      and order: the bytes read are a prefix of the bytes written, what is missing is exactly
      `pending` followed by the plaintext of the records on the wire, no record is ever refused, and
      a Read into a non-empty buffer makes progress whenever anything is missing. */
  lemma NoiseRefinesByteStream(a: Aead, key: nat, ops: seq<Op>, max: nat)
    requires Sound(a)
    ensures var r := Exec(a, key, ops);
            && r.written == r.read + r.link.pending + OpenAll(a, key, r.link.received, r.link.wire)
            && !r.rejected
            && (max > 0 && r.read != r.written
                ==> |Step(a, key, r, ReadOp(max)).read| > |r.read|)
  {
    var flying := RunExplained(a, key, ops);
    var r := Exec(a, key, ops);
    OpenSealed(a, key, r.link.received, flying);
    var _ := ReadKeeps(a, key, r, flying, max);
  }
}
