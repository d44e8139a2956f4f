/** UDP over a stream carrier (udp.go): one side announces a target and then sends one frame per
    datagram, the other decodes them. Proved end to end, over every kind of connection and for
    whatever part of the traffic has arrived. */
module DatagramRelay {
  import opened Bytes
  import opened Options
  import NoiseRecords
  import opened Transport
  import opened Framing

  const MAX_UDP_DATAGRAM := 65507
  const UDP_PREFIX: Bytes := [0x75, 0x64, 0x70, 0x3A] // "udp:"
  const BAR: byte := 0x7C                             // '|'

  // ---- targets ----

  /** isUDPTarget: the address behind the marker, if the marker is there. */
  function UdpTarget(target: Bytes): (addr: Option<Bytes>)
    ensures addr.Some? <==> UDP_PREFIX <= target
    ensures addr.Some? ==> target == UDP_PREFIX + addr.value
  {
    if UDP_PREFIX <= target then Some(target[4..]) else None
  }

  /** Only the first of several "|"-separated backends is used for UDP. */
  function FirstBackend(addr: Bytes): (first: Bytes)
    ensures first <= addr && BAR !in first
    ensures first == addr || addr[|first|] == BAR
  {
    if addr == [] || addr[0] == BAR then [] else [addr[0]] + FirstBackend(addr[1..])
  }

  // ---- the byte format ----

  /** How a reader's loop over readDatagram ends. */
  datatype End = Drained | Cut | TooLarge

  datatype Decoded = Decoded(datagrams: seq<Bytes>, end: End)

  function ParseDatagrams(stream: Bytes, limit: nat): Decoded
    decreases |stream|
  {
    if stream == [] then Decoded([], Drained)
    else
      match ParseFrame(stream, limit)
      case Short => Decoded([], Cut)
      case TooLong => Decoded([], TooLarge)
      case Parsed(value, rest) =>
        var d := ParseDatagrams(rest, limit);
        Decoded([value] + d.datagrams, d.end)
  }

  datatype Session = Session(target: Bytes, relay: Decoded) | NoTarget

  function ParseSession(stream: Bytes): Session {
    match ParseFrame(stream, MAX_TARGET_LEN)
    case Parsed(target, rest) => Session(target, ParseDatagrams(rest, MAX_UDP_DATAGRAM))
    case _ => NoTarget
  }

  /** The writes of one relay: each frame is a header write and a body write. */
  function FrameWrites(frames: seq<Bytes>): (writes: seq<Bytes>)
    ensures |writes| == 2 * |frames|
  {
    if frames == [] then []
    else FrameWrites(frames[..|frames| - 1])
         + [PutUint16(|frames[|frames| - 1]|), frames[|frames| - 1]]
  }

  function FrameBytes(frames: seq<Bytes>): Bytes {
    if frames == [] then [] else NoiseRecords.Frame(frames[0]) + FrameBytes(frames[1..])
  }

  lemma {:induction false} FrameBytesSnoc(init: seq<Bytes>, last: Bytes)
    ensures FrameBytes(init + [last]) == FrameBytes(init) + NoiseRecords.Frame(last)
  {
    if init == [] {
      var only: seq<Bytes> := [last];
      assert init + [last] == only && only[1..] == [];
    } else {
      assert (init + [last])[1..] == init[1..] + [last];
      FrameBytesSnoc(init[1..], last);
    }
  }

  lemma {:induction false} WritesMakeFrames(frames: seq<Bytes>)
    ensures Concat(FrameWrites(frames)) == FrameBytes(frames)
    decreases |frames|
  {
    if frames != [] {
      var init, last := frames[..|frames| - 1], frames[|frames| - 1];
      var pair: seq<Bytes> := [PutUint16(|last|), last];
      WritesMakeFrames(init);
      ConcatAppend(FrameWrites(init), pair);
      ConcatOne(last);
      assert pair[1..] == [last];
      assert init + [last] == frames;
      FrameBytesSnoc(init, last);
    }
  }

  ghost predicate Fit(datagrams: seq<Bytes>, limit: nat) {
    forall i :: 0 <= i < |datagrams| ==> |datagrams[i]| <= limit
  }

  /** What has arrived of a frame and what follows it: part of the frame, or all of it and a tail. */
  lemma SplitArrived(msg: Bytes, rest: Bytes, limit: nat, arrived: Bytes) returns (tail: Bytes)
    requires |msg| <= limit <= MAX_UINT16
    requires arrived <= NoiseRecords.Frame(msg) + rest
    ensures if |arrived| < |NoiseRecords.Frame(msg)| then ParseFrame(arrived, limit) == Short
            else tail <= rest && ParseFrame(arrived, limit) == Parsed(msg, tail)
                 && (arrived == NoiseRecords.Frame(msg) + rest <==> tail == rest)
  {
    var frame := NoiseRecords.Frame(msg);
    tail := [];
    if |arrived| < |frame| {
      CutFrameIsShort(msg, rest, limit, arrived);
    } else {
      tail := arrived[|frame|..];
      assert arrived == frame + tail;
      ParseFrameInvertsFrame(msg, tail, limit);
    }
  }

  /** Whatever part of a sequence of frames has arrived decodes to the datagrams whose frames are
      complete, in order and with their boundaries; the size check never fires, and once everything
      is there nothing is missing. */
  lemma {:induction false} DecodePart(datagrams: seq<Bytes>, limit: nat, arrived: Bytes)
    requires limit <= MAX_UINT16 && Fit(datagrams, limit)
    requires arrived <= FrameBytes(datagrams)
    ensures ParseDatagrams(arrived, limit).datagrams <= datagrams
    ensures ParseDatagrams(arrived, limit).end != TooLarge
    ensures arrived == FrameBytes(datagrams)
            <==> ParseDatagrams(arrived, limit) == Decoded(datagrams, Drained)
    decreases |datagrams|
  {
    if datagrams != [] && arrived != [] {
      var first, others := datagrams[0], datagrams[1..];
      var tail := SplitArrived(first, FrameBytes(others), limit, arrived);
      if |arrived| >= |NoiseRecords.Frame(first)| {
        DecodePart(others, limit, tail);
        assert datagrams == [first] + others;
      }
    }
  }

  lemma DecodeSessionPart(target: Bytes, datagrams: seq<Bytes>, arrived: Bytes)
    requires |target| <= MAX_TARGET_LEN && Fit(datagrams, MAX_UDP_DATAGRAM)
    requires arrived <= FrameBytes([target] + datagrams)
    ensures var s := ParseSession(arrived);
            s.Session? ==> s.target == target && s.relay.datagrams <= datagrams && s.relay.end != TooLarge
    ensures arrived == FrameBytes([target] + datagrams)
            <==> ParseSession(arrived) == Session(target, Decoded(datagrams, Drained))
  {
    assert ([target] + datagrams)[1..] == datagrams;
    var tail := SplitArrived(target, FrameBytes(datagrams), MAX_TARGET_LEN, arrived);
    if |arrived| >= |NoiseRecords.Frame(target)| {
      DecodePart(datagrams, MAX_UDP_DATAGRAM, tail);
    }
  }

  // ---- traffic that is still arriving ----

  ghost predicate Arrived(part: Traffic, whole: Traffic) {
    match (part, whole)
    case (Stream(p), Stream(w)) => p <= w
    case (Records(p, _), Records(w, _)) => p <= w
    case (Messages(p), Messages(w)) => p <= w
    case _ => false
  }

  /** Over any connection, what a receiver can read of the traffic that has arrived is a prefix of
      what was written, and all of it once everything has arrived. */
  lemma PartOfAByteStream(tx: Conn, rx: Conn, writes: seq<Bytes>, part: Traffic)
    requires Valid(tx) && Valid(rx) && Peers(tx, rx)
    requires Arrived(part, TransmitAll(tx, writes)) && Faces(rx, part)
    ensures Readable(rx) <= Concat(writes)
    ensures part == TransmitAll(tx, writes) ==> Readable(rx) == Concat(writes)
  {
    var whole := TransmitAll(tx, writes);
    if part == whole {
      EveryConnIsAByteStream(tx, rx, writes);
    } else {
      var records := TrafficCarries(tx, writes);
      match tx
      case Plain(_) =>
      case Noise(n) =>
        var missing := whole.bytes[|part.bytes|..];
        assert whole.bytes == part.bytes + missing;
        NoiseRecords.OpenAllMonotone(n.aead, n.sendKey, 0, part.bytes, missing);
        NoiseRecords.OpenSealed(n.aead, n.sendKey, 0, records);
      case Wss(_) =>
        var missing := whole.messages[|part.messages|..];
        assert whole.messages == part.messages + missing;
        BinaryBytesAppend(part.messages, missing);
    }
  }

  /** What a receiver has in front of it once it has read the first `n` bytes. */
  function Past(stream: Bytes, n: nat): Bytes
    requires n <= |stream|
  {
    stream[n..]
  }

  /** Traffic that begins with other writes, a handshake's say: behind them the receiver finds a
      prefix of the frames, and all of them once everything has arrived. */
  lemma FramesBehind(tx: Conn, rx: Conn, before: seq<Bytes>, frames: seq<Bytes>, part: Traffic)
    requires Valid(tx) && Valid(rx) && Peers(tx, rx)
    requires Arrived(part, TransmitAll(tx, before + FrameWrites(frames))) && Faces(rx, part)
    ensures var skip := |Concat(before)|;
            && (skip <= |Readable(rx)| ==> Past(Readable(rx), skip) <= FrameBytes(frames))
            && (part == TransmitAll(tx, before + FrameWrites(frames)) ==>
                  skip <= |Readable(rx)| && Past(Readable(rx), skip) == FrameBytes(frames))
  {
    PartOfAByteStream(tx, rx, before + FrameWrites(frames), part);
    ConcatAppend(before, FrameWrites(frames));
    WritesMakeFrames(frames);
  }

  /** End-to-end preservation, whatever the connection carried before. A session announces "udp:" +
      `addr` and relays datagrams read into 65507-byte buffers; whichever connection carries them and
      whatever part has arrived, the other side, once past the earlier traffic, decodes the same
      target and a prefix of the same datagrams, each one whole, and never meets a datagram too large
      for its own buffer. Once all of it has arrived, nothing is missing. */
  lemma DatagramsSurvive(tx: Conn, rx: Conn, before: seq<Bytes>, addr: Bytes, datagrams: seq<Bytes>, part: Traffic)
    requires Valid(tx) && Valid(rx) && Peers(tx, rx)
    requires |UDP_PREFIX + addr| <= MAX_TARGET_LEN && Fit(datagrams, MAX_UDP_DATAGRAM)
    requires var whole := TransmitAll(tx, before + FrameWrites([UDP_PREFIX + addr] + datagrams));
             Arrived(part, whole) && Faces(rx, part)
    ensures var skip := |Concat(before)|;
            && (skip <= |Readable(rx)| ==>
                  var s := ParseSession(Past(Readable(rx), skip));
                  s.Session? ==>
                    && UdpTarget(s.target) == Some(addr)
                    && s.relay.datagrams <= datagrams && s.relay.end != TooLarge)
            && (part == TransmitAll(tx, before + FrameWrites([UDP_PREFIX + addr] + datagrams)) ==>
                  && skip <= |Readable(rx)|
                  && ParseSession(Past(Readable(rx), skip)) == Session(UDP_PREFIX + addr, Decoded(datagrams, Drained)))
  {
    hide Readable;
    FramesBehind(tx, rx, before, [UDP_PREFIX + addr] + datagrams, part);
    if |Concat(before)| <= |Readable(rx)| {
      DecodeSessionPart(UDP_PREFIX + addr, datagrams, Past(Readable(rx), |Concat(before)|));
    }
    assert (UDP_PREFIX + addr)[4..] == addr;
  }

  /** The way back carries datagram frames only, behind whatever it carried before. */
  lemma RepliesSurvive(tx: Conn, rx: Conn, before: seq<Bytes>, datagrams: seq<Bytes>, part: Traffic)
    requires Valid(tx) && Valid(rx) && Peers(tx, rx) && Fit(datagrams, MAX_UDP_DATAGRAM)
    requires Arrived(part, TransmitAll(tx, before + FrameWrites(datagrams))) && Faces(rx, part)
    ensures var skip := |Concat(before)|;
            && (skip <= |Readable(rx)| ==>
                  var d := ParseDatagrams(Past(Readable(rx), skip), MAX_UDP_DATAGRAM);
                  d.datagrams <= datagrams && d.end != TooLarge)
            && (part == TransmitAll(tx, before + FrameWrites(datagrams)) ==>
                  && skip <= |Readable(rx)|
                  && ParseDatagrams(Past(Readable(rx), skip), MAX_UDP_DATAGRAM) == Decoded(datagrams, Drained))
  {
    hide Readable;
    FramesBehind(tx, rx, before, datagrams, part);
    if |Concat(before)| <= |Readable(rx)| {
      DecodePart(datagrams, MAX_UDP_DATAGRAM, Past(Readable(rx), |Concat(before)|));
    }
  }

  // ---- the two loops ----

  /** The server's side of one session: announce the target, then one frame per datagram, on a
      connection that may have been written to before. */
  method SendSession(c: Conn, addr: Bytes, datagrams: seq<Bytes>, ghost log: seq<Bytes>) returns (ok: bool)
    requires Valid(c) && Said(c, log) && Fit(datagrams, MAX_UDP_DATAGRAM)
    modifies Footprint(c)
    ensures ok <==> |UDP_PREFIX + addr| <= MAX_TARGET_LEN
    ensures Said(c, if ok then log + FrameWrites([UDP_PREFIX + addr] + datagrams) else log)
    ensures Readable(c) == old(Readable(c))
  {
    hide Said;
    hide Readable;
    hide FrameWrites;
    ghost var frames: seq<Bytes> := [UDP_PREFIX + addr];
    ok := WriteString(c, UDP_PREFIX + addr, log);
    if !ok {
      return;
    }
    FrameWritesOne(UDP_PREFIX + addr);
    assert log + [PutUint16(|UDP_PREFIX + addr|), UDP_PREFIX + addr] == log + FrameWrites(frames);
    var i := 0;
    while i < |datagrams|
      invariant 0 <= i <= |datagrams|
      invariant Said(c, log + FrameWrites(frames)) && Readable(c) == old(Readable(c))
      invariant frames == [UDP_PREFIX + addr] + datagrams[..i]
    {
      var sent := WriteDatagram(c, datagrams[i], log + FrameWrites(frames));
      LogSnoc(log, frames, datagrams[i]);
      frames := frames + [datagrams[i]];
      i := i + 1;
    }
    assert datagrams[..|datagrams|] == datagrams;
  }

  lemma LogSnoc(log: seq<Bytes>, frames: seq<Bytes>, last: Bytes)
    ensures log + FrameWrites(frames + [last]) == log + FrameWrites(frames) + [PutUint16(|last|), last]
  {
    hide FrameWrites;
    FrameWritesSnoc(frames, last);
  }

  lemma FrameWritesSnoc(frames: seq<Bytes>, last: Bytes)
    ensures FrameWrites(frames + [last]) == FrameWrites(frames) + [PutUint16(|last|), last]
  {
    assert (frames + [last])[..|frames|] == frames;
  }

  lemma FrameWritesOne(only: Bytes)
    ensures FrameWrites([only]) == [] + [PutUint16(|only|), only]
  {
    var frames: seq<Bytes> := [only];
    assert frames[..0] == [];
  }

  lemma ParseStep(stream: Bytes, limit: nat)
    ensures var p := ParseFrame(stream, limit);
            ParseDatagrams(stream, limit).datagrams
            == if p.Parsed? then [p.value] + ParseDatagrams(p.rest, limit).datagrams else []
  {
  }

  /** Reads datagrams until the carrier yields no more; one buffer is reused for all of them. */
  method ReceiveAll(c: Conn) returns (delivered: seq<Bytes>)
    requires Valid(c)
    modifies Footprint(c)
    ensures delivered == ParseDatagrams(old(Readable(c)), MAX_UDP_DATAGRAM).datagrams
  {
    hide Readable;
    hide Sent;
    hide ParseDatagrams;
    hide ParseFrame;
    ghost var all := ParseDatagrams(Readable(c), MAX_UDP_DATAGRAM).datagrams;
    delivered := [];
    var buf := new byte[MAX_UDP_DATAGRAM];
    var ok := true;
    while ok
      invariant buf !in Footprint(c)
      invariant ok ==> all == delivered + ParseDatagrams(Readable(c), MAX_UDP_DATAGRAM).datagrams
      invariant !ok ==> all == delivered
      decreases ok, if ok then |Readable(c)| else 0
    {
      ghost var p := ParseFrame(Readable(c), MAX_UDP_DATAGRAM);
      ParseStep(Readable(c), MAX_UDP_DATAGRAM);
      var n;
      n, ok := ReadDatagram(c, buf);
      if ok {
        assert p == Parsed(buf[..n], Readable(c));
        delivered := delivered + [buf[..n]];
      }
    }
  }

  /** The client's side: read the target, then hand every datagram to the local socket. */
  method ServeUdp(c: Conn) returns (target: Bytes, isUdp: bool, backend: Bytes, delivered: seq<Bytes>)
    requires Valid(c)
    modifies Footprint(c)
    ensures match ParseSession(old(Readable(c)))
            case NoTarget => !isUdp && delivered == []
            case Session(t, relay) =>
              && target == t && (isUdp <==> UdpTarget(t).Some?)
              && delivered == (if isUdp then relay.datagrams else [])
              && (isUdp ==> backend == FirstBackend(UdpTarget(t).value))
  {
    hide Readable;
    backend, delivered, isUdp := [], [], false;
    var ok;
    target, ok := ReadString(c);
    if ok && UdpTarget(target).Some? {
      isUdp := true;
      backend := FirstBackend(UdpTarget(target).value);
      delivered := ReceiveAll(c);
    }
  }
}
