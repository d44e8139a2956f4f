/** The length-prefixed frames of protocol.go over any connection: target strings of at most 512
    bytes and datagrams read into a caller's buffer. */
module Framing {
  import opened Bytes
  import opened NoiseRecords
  import opened Transport

  const MAX_TARGET_LEN := 512

  /** `Short`: the stream ended inside the frame. `TooLong`: the announced length is refused. */
  datatype Parsed = Parsed(value: Bytes, rest: Bytes) | Short | TooLong

  /** One frame off the front of a stream, with the reader's limit on its length. */
  function ParseFrame(stream: Bytes, limit: nat): (p: Parsed)
    ensures p.Parsed? ==> |p.value| <= limit && |p.rest| < |stream|
  {
    if |stream| < 2 then Short
    else
      var n := Uint16(stream[..2]);
      if n > limit then TooLong
      else if |stream| < 2 + n then Short
      else Parsed(stream[2..2 + n], stream[2 + n..])
  }

  /** What a writer frames, a reader with a sufficient limit gets back, and the next byte it sees is
      the first one after the frame; with a smaller limit it refuses. */
  lemma ParseFrameInvertsFrame(msg: Bytes, rest: Bytes, limit: nat)
    requires |msg| <= MAX_UINT16
    ensures ParseFrame(Frame(msg) + rest, limit)
            == if |msg| <= limit then Parsed(msg, rest) else TooLong
  {
    var stream := Frame(msg) + rest;
    Uint16RoundTrip(|msg|);
    assert stream[..2] == PutUint16(|msg|);
    assert stream[2..2 + |msg|] == msg;
    assert stream[2 + |msg|..] == rest;
  }

  /** A writer's frame cut short anywhere is only ever incomplete, never misread. */
  lemma CutFrameIsShort(msg: Bytes, rest: Bytes, limit: nat, arrived: Bytes)
    requires |msg| <= MAX_UINT16 && |msg| <= limit
    requires arrived <= Frame(msg) + rest && |arrived| < |Frame(msg)|
    ensures ParseFrame(arrived, limit) == Short
  {
    Uint16RoundTrip(|msg|);
    if |arrived| >= 2 {
      assert arrived[..2] == (Frame(msg) + rest)[..2] == PutUint16(|msg|);
    }
  }

  // ---- writers ----

  method WriteString(c: Conn, s: Bytes, ghost log: seq<Bytes>) returns (ok: bool)
    requires Valid(c) && Said(c, log)
    modifies Footprint(c)
    ensures Readable(c) == old(Readable(c))
    ensures ok <==> |s| <= MAX_TARGET_LEN
    ensures Said(c, if ok then log + [PutUint16(|s|), s] else log)
  {
    if |s| > MAX_TARGET_LEN {
      return false;
    }
    WriteTwo(c, PutUint16(|s|), s, log);
    ok := true;
  }

  method WriteDatagram(c: Conn, p: Bytes, ghost log: seq<Bytes>) returns (ok: bool)
    requires Valid(c) && Said(c, log)
    modifies Footprint(c)
    ensures Readable(c) == old(Readable(c))
    ensures ok <==> |p| <= MAX_UINT16
    ensures Said(c, if ok then log + [PutUint16(|p|), p] else log)
  {
    if |p| > 65535 {
      return false;
    }
    WriteTwo(c, PutUint16(|p|), p, log);
    ok := true;
  }

  method WriteTwo(c: Conn, header: Bytes, body: Bytes, ghost log: seq<Bytes>)
    requires Valid(c) && Said(c, log)
    modifies Footprint(c)
    ensures Readable(c) == old(Readable(c))
    ensures Said(c, log + [header, body])
  {
    hide Said;
    Put(c, header, log);
    Put(c, body, log + [header]);
    assert log + [header] + [body] == log + [header, body];
  }

  // ---- readers ----

  method ReadString(c: Conn) returns (s: Bytes, ok: bool)
    requires Valid(c)
    modifies Footprint(c)
    ensures Sent(c) == old(Sent(c))
    ensures ok <==> ParseFrame(old(Readable(c)), MAX_TARGET_LEN).Parsed?
    ensures ok ==> ParseFrame(old(Readable(c)), MAX_TARGET_LEN) == Parsed(s, Readable(c))
  {
    hide Readable;
    hide Sent;
    ghost var stream := Readable(c);
    var header := new byte[2];
    ok := ReadFull(c, header, 2);
    if !ok {
      return [], false;
    }
    assert header[..] == stream[..2];
    var n := Uint16(header[..]);
    if n > MAX_TARGET_LEN {
      return [], false;
    }
    var buf := new byte[n];
    ok := ReadFull(c, buf, n);
    if !ok {
      return [], false;
    }
    s := buf[..];
    assert s == stream[2..][..n] == stream[2..2 + n];
    assert stream[2..][n..] == stream[2 + n..];
  }

  /** Reads the next datagram into the caller's buffer; the buffer beyond it is left alone. */
  method ReadDatagram(c: Conn, buf: array<byte>) returns (n: nat, ok: bool)
    requires Valid(c) && buf !in Footprint(c)
    modifies Footprint(c), buf
    ensures Sent(c) == old(Sent(c))
    ensures ok <==> ParseFrame(old(Readable(c)), buf.Length).Parsed?
    ensures ok ==> n <= buf.Length
    ensures ok ==> ParseFrame(old(Readable(c)), buf.Length) == Parsed(buf[..n], Readable(c))
    ensures ok ==> buf[n..] == old(buf[..])[n..]
  {
    hide Readable;
    hide Sent;
    ghost var stream := Readable(c);
    var header := new byte[2];
    ok := ReadFull(c, header, 2);
    if !ok {
      return 0, false;
    }
    assert header[..] == stream[..2];
    n := Uint16(header[..]);
    if n > buf.Length {
      return 0, false;
    }
    ghost var was := buf[..];
    ok := ReadFull(c, buf, n);
    if !ok {
      return 0, false;
    }
    assert buf[..] == stream[2..][..n] + was[n..];
    assert buf[..n] == stream[2..2 + n];
    assert stream[2..][n..] == stream[2 + n..];
  }
}
