/** The connections the tunnel runs over: a raw byte stream that delivers in arbitrary pieces
    (net.Conn over TCP), the Noise connection of noise.go and the WebSocket adapter of wss.go.
    Each Read and Write is proved against what the peer can still read, so everything above this
    module sees one thing: a byte stream. */
module Transport {
  import opened Bytes
  import opened Options
  import opened NoiseRecords

  // ---- raw connection ----

  class RawConn {
    /** Bytes that have arrived and were not read yet. */
    var inbound: Bytes
    /** Every byte written so far. */
    var outbound: Bytes

    constructor (inbound: Bytes)
      ensures this.inbound == inbound && outbound == []
    {
      this.inbound := inbound;
      outbound := [];
    }

    /** Delivers any non-empty piece of what has arrived, however the network cut it. */
    method Read(max: nat) returns (data: Bytes, ok: bool)
      requires max > 0
      modifies this`inbound
      ensures ok <==> old(inbound) != []
      ensures ok ==> 0 < |data| <= max
      ensures old(inbound) == data + inbound
    {
      if inbound == [] {
        return [], false;
      }
      var k: nat :| 1 <= k <= max && k <= |inbound|;
      data, ok := inbound[..k], true;
      inbound := inbound[k..];
    }

    method Write(p: Bytes)
      modifies this`outbound
      ensures outbound == old(outbound) + p
    {
      outbound := outbound + p;
    }

    /** io.ReadFull: loops over short reads until `n` bytes are there. */
    method ReadFull(n: nat) returns (data: Bytes, ok: bool)
      modifies this`inbound
      ensures ok <==> |old(inbound)| >= n
      ensures ok ==> data == old(inbound)[..n] && inbound == old(inbound)[n..]
      ensures !ok ==> inbound == []
      ensures |inbound| <= |old(inbound)|
    {
      data, ok := [], true;
      while |data| < n
        invariant |data| <= n && ok
        invariant old(inbound) == data + inbound
        decreases n - |data|
      {
        var piece: Bytes;
        piece, ok := Read(n - |data|);
        if !ok {
          return;
        }
        data := data + piece;
      }
    }

    method WriteFrame(msg: Bytes)
      modifies this`outbound
      ensures outbound == old(outbound) + Frame(msg)
    {
      Write(PutUint16(|msg|));
      Write(msg);
      assert outbound == old(outbound) + Frame(msg);
    }

    method ReadFrame() returns (frame: Bytes, ok: bool)
      modifies this`inbound
      ensures ok <==> Unframe(old(inbound)).Whole?
      ensures ok ==> Unframe(old(inbound)) == Whole(frame, inbound)
      ensures |inbound| <= |old(inbound)|
    {
      ghost var was := inbound;
      var header: Bytes;
      header, ok := ReadFull(2);
      if !ok {
        return [], false;
      }
      frame, ok := ReadFull(Uint16(header));
      if ok {
        assert was[2..][..Uint16(header)] == was[2..2 + Uint16(header)];
        assert was[2..][Uint16(header)..] == was[2 + Uint16(header)..];
      }
    }
  }

  // ---- Noise connection ----

  class NoiseConn {
    const raw: RawConn
    const aead: Aead
    const sendKey: nat
    const recvKey: nat
    var sent: nat
    var received: nat
    var pending: Bytes

    constructor (raw: RawConn, aead: Aead, initiator: bool)
      ensures this.raw == raw && this.aead == aead
      ensures (sendKey, recvKey) == SessionKeys(initiator)
      ensures sent == 0 && received == 0 && pending == []
    {
      this.raw := raw;
      this.aead := aead;
      sendKey, recvKey := SessionKeys(initiator).0, SessionKeys(initiator).1;
      sent, received, pending := 0, 0, [];
    }

    /** The receiving half of this connection as a Link. */
    function Receiving(): Link
      reads this, raw
    {
      Link(sent, raw.inbound, received, pending)
    }

    method Write(p: Bytes)
      modifies this`sent, raw`outbound
      ensures sent == old(sent) + |Chunks(p)|
      ensures raw.outbound == old(raw.outbound) + SealAll(aead, sendKey, old(sent), Chunks(p))
    {
      var rest := p;
      ghost var done: seq<Bytes> := [];
      while |rest| > 0
        invariant Chunks(p) == done + Chunks(rest)
        invariant sent == old(sent) + |done|
        invariant raw.outbound == old(raw.outbound) + SealAll(aead, sendKey, old(sent), done)
        decreases |rest|
      {
        var chunk := rest;
        if |chunk| > MAX_RECORD {
          chunk := chunk[..MAX_RECORD];
        }
        Send(chunk, old(sent), done, old(raw.outbound));
        assert Chunks(p) == (done + [chunk]) + Chunks(rest[|chunk|..]);
        done := done + [chunk];
        rest := rest[|chunk|..];
      }
      assert done == Chunks(p);
    }

    /** Encrypts one chunk and writes its frame. */
    method Send(chunk: Bytes, ghost first: nat, ghost done: seq<Bytes>, ghost wire: Bytes)
      requires sent == first + |done|
      requires raw.outbound == wire + SealAll(aead, sendKey, first, done)
      modifies this`sent, raw`outbound
      ensures sent == old(sent) + 1
      ensures raw.outbound == wire + SealAll(aead, sendKey, first, done + [chunk])
    {
      var sealed := aead.seal(sendKey, sent, chunk);
      SealOneMore(aead, sendKey, first, done, chunk);
      Associate(wire, SealAll(aead, sendKey, first, done), Frame(sealed));
      sent := sent + 1;
      raw.WriteFrame(sealed);
    }

    /** Decrypts the next record only once the previous one is used up. */
    method Read(max: nat) returns (data: Bytes, ok: bool)
      modifies this`pending, this`received, raw`inbound
      ensures var (l, result) := ReadLink(aead, recvKey, old(Receiving()), max);
              && ok == result.Got?
              && (ok ==> data == result.data && Receiving() == l)
      ensures !ok ==> pending == []
      ensures |raw.inbound| <= |old(raw.inbound)|
    {
      if |pending| == 0 {
        var frame: Bytes;
        frame, ok := raw.ReadFrame();
        if !ok {
          return [], false;
        }
        var plain := aead.open(recvKey, received, frame);
        if plain.None? {
          return [], false;
        }
        received := received + 1;
        pending := plain.value;
      }
      var n := if max < |pending| then max else |pending|;
      data, ok := pending[..n], true;
      pending := pending[n..];
    }
  }

  // ---- WebSocket adapter ----

  datatype Message = Binary(data: Bytes) | Other(payload: Bytes)

  /** The byte stream a sequence of WebSocket messages stands for: the binary ones, in order. */
  function BinaryBytes(messages: seq<Message>): Bytes {
    if messages == [] then []
    else (if messages[0].Binary? then messages[0].data else []) + BinaryBytes(messages[1..])
  }

  lemma {:induction false} BinaryBytesAppend(a: seq<Message>, b: seq<Message>)
    ensures BinaryBytes(a + b) == BinaryBytes(a) + BinaryBytes(b)
  {
    if a == [] {
      assert a + b == b;
    } else {
      assert (a + b)[1..] == a[1..] + b;
      BinaryBytesAppend(a[1..], b);
    }
  }

  lemma BinaryBytesOne(p: Bytes)
    ensures BinaryBytes([Binary(p)]) == p
  {
    var messages := [Binary(p)];
    assert messages[1..] == [];
  }

  class WsConn {
    var inbound: seq<Message>
    var outbound: seq<Message>
    var pending: Bytes

    constructor (inbound: seq<Message>)
      ensures this.inbound == inbound && outbound == [] && pending == []
    {
      this.inbound := inbound;
      outbound, pending := [], [];
    }

    /** Skips everything that is not a non-empty binary message. */
    method Read(max: nat) returns (data: Bytes, ok: bool)
      modifies this`inbound, this`pending
      ensures ok <==> old(pending + BinaryBytes(inbound)) != []
      ensures old(pending + BinaryBytes(inbound)) == data + pending + BinaryBytes(inbound)
      ensures ok ==> |data| <= max && (max > 0 ==> data != [])
    {
      while |pending| == 0
        invariant pending + BinaryBytes(inbound) == old(pending + BinaryBytes(inbound))
        decreases |inbound|, |pending| == 0
      {
        if inbound == [] {
          return [], false;
        }
        var m := inbound[0];
        inbound := inbound[1..];
        if m.Other? {
          continue;
        }
        pending := m.data;
      }
      var n := if max < |pending| then max else |pending|;
      data, ok := pending[..n], true;
      pending := pending[n..];
    }

    method Write(p: Bytes)
      modifies this`outbound
      ensures outbound == old(outbound) + [Binary(p)]
    {
      outbound := outbound + [Binary(p)];
    }
  }

  // ---- any of the three ----

  /** The dynamic type behind the net.Conn interface. */
  datatype Conn = Plain(raw: RawConn) | Noise(noise: NoiseConn) | Wss(ws: WsConn)

  ghost function Footprint(c: Conn): set<object> {
    match c
    case Plain(raw) => {raw}
    case Noise(noise) => {noise, noise.raw}
    case Wss(ws) => {ws}
  }

  ghost predicate Valid(c: Conn) {
    c.Noise? ==> Sound(c.noise.aead)
  }

  /** Everything this end can still read: the one thing the layers above rely on. */
  ghost function Readable(c: Conn): Bytes
    reads Footprint(c)
  {
    match c
    case Plain(raw) => raw.inbound
    case Noise(noise) => Stock(noise.aead, noise.recvKey, noise.Receiving())
    case Wss(ws) => ws.pending + BinaryBytes(ws.inbound)
  }

  /** What has been put on the wire so far. */
  datatype Traffic = Stream(bytes: Bytes) | Records(bytes: Bytes, count: nat) | Messages(messages: seq<Message>)

  ghost function Sent(c: Conn): Traffic
    reads Footprint(c)
  {
    match c
    case Plain(raw) => Stream(raw.outbound)
    case Noise(noise) => Records(noise.raw.outbound, noise.sent)
    case Wss(ws) => Messages(ws.outbound)
  }

  /** How one Write adds to the traffic. */
  ghost function Transmit(c: Conn, t: Traffic, p: Bytes): Traffic {
    match (c, t)
    case (Noise(noise), Records(bytes, n)) =>
      Records(bytes + SealAll(noise.aead, noise.sendKey, n, Chunks(p)), n + |Chunks(p)|)
    case (_, Messages(ms)) => Messages(ms + [Binary(p)])
    case (_, _) => Stream(t.bytes + p)
  }

  /** A bound on how many more Reads can succeed. */
  ghost function Backlog(c: Conn): nat
    reads Footprint(c)
  {
    match c
    case Plain(raw) => |raw.inbound|
    case Noise(noise) => |noise.pending| + |noise.raw.inbound|
    case Wss(ws) => |ws.pending| + |BinaryBytes(ws.inbound)|
  }

  method Read(c: Conn, max: nat) returns (data: Bytes, ok: bool)
    requires Valid(c) && max > 0
    modifies Footprint(c)
    ensures Sent(c) == old(Sent(c))
    ensures ok ==> |data| <= max && old(Readable(c)) == data + Readable(c)
    ensures ok ==> Backlog(c) < old(Backlog(c))
    ensures !ok ==> old(Readable(c)) == []
  {
    match c
    case Plain(raw) => data, ok := raw.Read(max);
    case Noise(noise) =>
      ReadTakesFromStock(noise.aead, noise.recvKey, noise.Receiving(), max);
      data, ok := noise.Read(max);
    case Wss(ws) =>
      data, ok := ws.Read(max);
  }

  method Write(c: Conn, p: Bytes)
    requires Valid(c)
    modifies Footprint(c)
    ensures Sent(c) == Transmit(c, old(Sent(c)), p)
    ensures Readable(c) == old(Readable(c))
  {
    match c
    case Plain(raw) => raw.Write(p);
    case Noise(noise) => noise.Write(p);
    case Wss(ws) => ws.Write(p);
  }

  /** io.ReadFull over any connection: fills the first `n` bytes of the caller's buffer in place. */
  method ReadFull(c: Conn, buf: array<byte>, n: nat) returns (ok: bool)
    requires Valid(c) && n <= buf.Length && buf !in Footprint(c)
    modifies Footprint(c), buf
    ensures Sent(c) == old(Sent(c))
    ensures ok <==> |old(Readable(c))| >= n
    ensures ok ==> buf[..] == old(Readable(c))[..n] + old(buf[..])[n..]
    ensures ok ==> Readable(c) == old(Readable(c))[n..]
  {
    hide *;
    ghost var was, ahead := buf[..], Readable(c);
    ghost var filled: Bytes := [];
    var got := 0;
    ok := true;
    while got < n
      invariant got == |filled| <= n && ok
      invariant Sent(c) == old(Sent(c))
      invariant ahead == filled + Readable(c)
      invariant buf[..] == filled + was[got..]
      decreases Backlog(c)
    {
      var data: Bytes;
      data, ok := ReadMore(c, buf, got, n, filled, was);
      if !ok {
        return;
      }
      Regroup2(ahead, filled, data, Readable(c));
      filled := filled + data;
      got := got + |data|;
    }
    Taken(ahead, filled, Readable(c));
  }

  lemma Regroup2(ahead: Bytes, filled: Bytes, data: Bytes, left: Bytes)
    requires ahead == filled + (data + left)
    ensures ahead == (filled + data) + left
  {
  }

  lemma Taken(ahead: Bytes, filled: Bytes, left: Bytes)
    requires ahead == filled + left
    ensures ahead[..|filled|] == filled && ahead[|filled|..] == left
  {
  }

  /** One iteration of io.ReadFull: r.Read(buf[got:n]). */
  method ReadMore(c: Conn, buf: array<byte>, got: nat, n: nat, ghost filled: Bytes, ghost was: Bytes)
    returns (data: Bytes, ok: bool)
    requires Valid(c) && buf !in Footprint(c)
    requires got == |filled| < n <= buf.Length == |was| && buf[..] == filled + was[|filled|..]
    modifies Footprint(c), buf
    ensures Sent(c) == old(Sent(c))
    ensures !ok ==> old(Readable(c)) == []
    ensures ok ==> |filled| + |data| <= n && old(Readable(c)) == data + Readable(c)
    ensures ok ==> buf[..] == (filled + data) + was[|filled| + |data|..]
    ensures ok ==> Backlog(c) < old(Backlog(c))
  {
    data, ok := Read(c, n - got);
    if ok {
      CopyInto(buf, got, data);
      Splice(filled, was, data);
    }
  }

  method CopyInto(buf: array<byte>, at: nat, data: Bytes)
    requires at + |data| <= buf.Length
    modifies buf
    ensures buf[..] == old(buf[..])[..at] + data + old(buf[..])[at + |data|..]
  {
    forall i | 0 <= i < |data| {
      buf[at + i] := data[i];
    }
  }

  lemma Splice(filled: Bytes, was: Bytes, data: Bytes)
    requires |filled| + |data| <= |was|
    ensures var now := filled + was[|filled|..];
            now[..|filled|] + data + now[|filled| + |data|..]
            == (filled + data) + was[|filled| + |data|..]
  {
  }

  // ---- from one end to the other ----

  /** A receiver that has read nothing yet and has this traffic in front of it. */
  ghost predicate Faces(rx: Conn, t: Traffic)
    reads Footprint(rx)
  {
    match (rx, t)
    case (Plain(raw), Stream(bytes)) => raw.inbound == bytes
    case (Noise(noise), Records(bytes, _)) =>
      noise.raw.inbound == bytes && noise.received == 0 && noise.pending == []
    case (Wss(ws), Messages(ms)) => ws.inbound == ms && ws.pending == []
    case _ => false
  }

  ghost function Silence(c: Conn): Traffic {
    match c
    case Plain(_) => Stream([])
    case Noise(_) => Records([], 0)
    case Wss(_) => Messages([])
  }

  ghost function TransmitAll(c: Conn, writes: seq<Bytes>): Traffic {
    if writes == [] then Silence(c)
    else Transmit(c, TransmitAll(c, writes[..|writes| - 1]), writes[|writes| - 1])
  }

  /** The writes made on this connection so far. */
  ghost predicate Said(c: Conn, log: seq<Bytes>)
    reads Footprint(c)
  {
    Sent(c) == TransmitAll(c, log)
  }

  method Put(c: Conn, p: Bytes, ghost log: seq<Bytes>)
    requires Valid(c) && Said(c, log)
    modifies Footprint(c)
    ensures Readable(c) == old(Readable(c)) && Said(c, log + [p])
  {
    Write(c, p);
    assert (log + [p])[..|log|] == log;
  }

  /** Two ends of one connection: same kind, and for Noise the same cipher with paired keys. */
  ghost predicate Peers(tx: Conn, rx: Conn) {
    match (tx, rx)
    case (Plain(_), Plain(_)) => true
    case (Noise(a), Noise(b)) => a.aead == b.aead && a.sendKey == b.recvKey
    case (Wss(_), Wss(_)) => true
    case _ => false
  }

  ghost predicate Carries(tx: Conn, t: Traffic, records: seq<Bytes>, plain: Bytes) {
    match (tx, t)
    case (Plain(_), Stream(bytes)) => bytes == plain
    case (Noise(noise), Records(bytes, n)) =>
      && WellSized(records) && n == |records|
      && bytes == SealAll(noise.aead, noise.sendKey, 0, records) && Concat(records) == plain
    case (Wss(_), Messages(ms)) => BinaryBytes(ms) == plain
    case _ => false
  }

  lemma OneMoreWrite(tx: Conn, t: Traffic, records: seq<Bytes>, plain: Bytes, p: Bytes)
    returns (more: seq<Bytes>)
    requires Valid(tx) && Carries(tx, t, records, plain)
    ensures Carries(tx, Transmit(tx, t, p), more, plain + p)
  {
    more := records;
    match tx
    case Plain(_) =>
    case Noise(noise) =>
      ChunksCover(p);
      SealAllAppend(noise.aead, noise.sendKey, 0, records, Chunks(p));
      ConcatAppend(records, Chunks(p));
      WellSizedAppend(records, Chunks(p));
      more := records + Chunks(p);
    case Wss(_) =>
      BinaryBytesAppend(t.messages, [Binary(p)]);
      BinaryBytesOne(p);
  }

  lemma {:induction false} TrafficCarries(tx: Conn, writes: seq<Bytes>) returns (records: seq<Bytes>)
    requires Valid(tx)
    ensures Carries(tx, TransmitAll(tx, writes), records, Concat(writes))
    decreases |writes|
  {
    records := [];
    if writes != [] {
      var before, p := writes[..|writes| - 1], writes[|writes| - 1];
      records := TrafficCarries(tx, before);
      records := OneMoreWrite(tx, TransmitAll(tx, before), records, Concat(before), p);
      assert writes == before + [p];
      ConcatAppend(before, [p]);
      ConcatOne(p);
    }
  }

  /** Whatever connection is used and however the writes were cut, the far end can read exactly the
      bytes that were written, in order. */
  lemma EveryConnIsAByteStream(tx: Conn, rx: Conn, writes: seq<Bytes>)
    requires Valid(tx) && Valid(rx) && Peers(tx, rx) && Faces(rx, TransmitAll(tx, writes))
    ensures Readable(rx) == Concat(writes)
  {
    var records := TrafficCarries(tx, writes);
    if tx.Noise? {
      OpenSealed(tx.noise.aead, tx.noise.sendKey, 0, records);
    }
  }
}
