/** One carrier from its first byte to its last datagram: the pool handshake, and behind it, on the
    same connection, whatever the two sides go on to send. */
module CarrierRoundTrip {
  import opened Bytes
  import opened Options
  import opened Transport
  import opened Framing
  import opened DatagramRelay
  import opened Handshake

  /** What the accepting side has written once it is done: its half of the handshake as a function of
      everything it could read, and then, if it accepted, `more`. */
  ghost function AcceptorWrites(s: ServerEnv, input: Bytes, more: seq<Bytes>): seq<Bytes> {
    Serve(s, input).writes + if Accepts(Serve(s, input).verdict) then more else []
  }

  ghost function DialerWrites(c: ClientEnv, role: Role, input: Bytes, more: seq<Bytes>): seq<Bytes> {
    Dial(c, role, input).writes + if Success(Dial(c, role, input).answer) then more else []
  }

  /** Both ends of one connection, and everything either wrote has reached the other. */
  ghost predicate Exchanged(acceptor: Conn, dialer: Conn, s: ServerEnv, c: ClientEnv, role: Role,
                            fromAcceptor: seq<Bytes>, fromDialer: seq<Bytes>)
    reads Footprint(acceptor), Footprint(dialer)
  {
    && Valid(acceptor) && Valid(dialer) && Peers(acceptor, dialer) && Peers(dialer, acceptor)
    && Faces(dialer, TransmitAll(acceptor, AcceptorWrites(s, Readable(acceptor), fromAcceptor)))
    && Faces(acceptor, TransmitAll(dialer, DialerWrites(c, role, Readable(dialer), fromDialer)))
  }

  /** The carrier is handed over clean: over any connection both sides succeed exactly when the
      handshake is to be granted, agree on what it established, and then each finds, behind the bytes its handshake consumed,
      exactly what the other went on to write. */
  lemma HandedOverClean(acceptor: Conn, dialer: Conn, s: ServerEnv, c: ClientEnv, role: Role,
                        fromAcceptor: seq<Bytes>, fromDialer: seq<Bytes>)
    requires ValidPair(s, c, role) && Exchanged(acceptor, dialer, s, c, role, fromAcceptor, fromDialer)
    ensures var served, dialed := Serve(s, Readable(acceptor)), Dial(c, role, Readable(dialer));
            && (Accepts(served.verdict) <==> Grants(s, c, role))
            && (Success(dialed.answer) <==> Grants(s, c, role))
            && served.verdict == Outcome(s, c, role)
            && (Grants(s, c, role) ==> dialed.answer == if role.Control? then Established(s.drawn) else Joined)
            && (Grants(s, c, role) ==>
                  && served.used <= |Readable(acceptor)| && dialed.used <= |Readable(dialer)|
                  && Past(Readable(acceptor), served.used) == Concat(fromDialer)
                  && Past(Readable(dialer), dialed.used) == Concat(fromAcceptor))
  {
    hide Readable, Faces, TransmitAll, Peers;
    var up, down := Readable(acceptor), Readable(dialer);
    EveryConnIsAByteStream(acceptor, dialer, AcceptorWrites(s, up, fromAcceptor));
    EveryConnIsAByteStream(dialer, acceptor, DialerWrites(c, role, down, fromDialer));
    var more := if Success(Dial(c, role, down).answer) then fromDialer else [];
    var reply := if Accepts(Serve(s, up).verdict) then fromAcceptor else [];
    ConcatAppend(Dial(c, role, down).writes, more);
    ConcatAppend(Serve(s, up).writes, reply);
    Agreement(s, c, role, up, down, Concat(more), Concat(reply));
    Consumed(s, c, role, up, down);
  }

  lemma Consumed(s: ServerEnv, c: ClientEnv, role: Role, up: Bytes, down: Bytes)
    ensures Serve(s, up).used <= |up| && Dial(c, role, down).used <= |down|
  {
  }

  /** UDP over a pool connection the client dialed: with equal tokens and the published epoch, the
      client reads, behind its handshake, the target and then every datagram of the session, and the
      server every reply. */
  lemma ReverseCarrier(server: Conn, client: Conn, s: ServerEnv, c: ClientEnv, epoch: Bytes,
                       addr: Bytes, datagrams: seq<Bytes>, replies: seq<Bytes>)
    requires ValidPair(s, c, Pool(epoch)) && s.token == c.token && s.current == Some(epoch)
    requires |UDP_PREFIX + addr| <= MAX_TARGET_LEN
    requires Fit(datagrams, MAX_UDP_DATAGRAM) && Fit(replies, MAX_UDP_DATAGRAM)
    requires Exchanged(server, client, s, c, Pool(epoch),
                       FrameWrites([UDP_PREFIX + addr] + datagrams), FrameWrites(replies))
    ensures var served, dialed := Serve(s, Readable(server)), Dial(c, Pool(epoch), Readable(client));
            && served.verdict == AcceptedPool(epoch) && dialed.answer == Joined
            && served.used <= |Readable(server)| && dialed.used <= |Readable(client)|
            && ParseSession(Past(Readable(client), dialed.used))
               == Session(UDP_PREFIX + addr, Decoded(datagrams, Drained))
            && ParseDatagrams(Past(Readable(server), served.used), MAX_UDP_DATAGRAM) == Decoded(replies, Drained)
  {
    hide Readable, Exchanged, ParseSession, ParseDatagrams;
    HandedOverClean(server, client, s, c, Pool(epoch), FrameWrites([UDP_PREFIX + addr] + datagrams), FrameWrites(replies));
    FramesDecode(addr, datagrams);
    WritesMakeFrames(replies);
    DecodePart(replies, MAX_UDP_DATAGRAM, FrameBytes(replies));
  }

  /** The same over a connection the server dialed (direction "direct"). */
  lemma DirectCarrier(server: Conn, client: Conn, s: ServerEnv, c: ClientEnv, epoch: Bytes,
                      addr: Bytes, datagrams: seq<Bytes>, replies: seq<Bytes>)
    requires ValidPair(s, c, Pool(epoch)) && s.token == c.token && s.current == Some(epoch)
    requires |UDP_PREFIX + addr| <= MAX_TARGET_LEN
    requires Fit(datagrams, MAX_UDP_DATAGRAM) && Fit(replies, MAX_UDP_DATAGRAM)
    requires Exchanged(client, server, s, c, Pool(epoch),
                       FrameWrites(replies), FrameWrites([UDP_PREFIX + addr] + datagrams))
    ensures var served, dialed := Serve(s, Readable(client)), Dial(c, Pool(epoch), Readable(server));
            && served.verdict == AcceptedPool(epoch) && dialed.answer == Joined
            && served.used <= |Readable(client)| && dialed.used <= |Readable(server)|
            && ParseSession(Past(Readable(client), served.used))
               == Session(UDP_PREFIX + addr, Decoded(datagrams, Drained))
            && ParseDatagrams(Past(Readable(server), dialed.used), MAX_UDP_DATAGRAM) == Decoded(replies, Drained)
  {
    hide Readable, Exchanged, ParseSession, ParseDatagrams;
    HandedOverClean(client, server, s, c, Pool(epoch), FrameWrites(replies), FrameWrites([UDP_PREFIX + addr] + datagrams));
    FramesDecode(addr, datagrams);
    WritesMakeFrames(replies);
    DecodePart(replies, MAX_UDP_DATAGRAM, FrameBytes(replies));
  }

  lemma FramesDecode(addr: Bytes, datagrams: seq<Bytes>)
    requires |UDP_PREFIX + addr| <= MAX_TARGET_LEN && Fit(datagrams, MAX_UDP_DATAGRAM)
    ensures ParseSession(Concat(FrameWrites([UDP_PREFIX + addr] + datagrams)))
            == Session(UDP_PREFIX + addr, Decoded(datagrams, Drained))
  {
    WritesMakeFrames([UDP_PREFIX + addr] + datagrams);
    DecodeSessionPart(UDP_PREFIX + addr, datagrams, FrameBytes([UDP_PREFIX + addr] + datagrams));
  }

  // ---- TCP ----

  /** The writes of one frame. */
  function FrameOf(msg: Bytes): seq<Bytes> { [PutUint16(|msg|), msg] }

  lemma TargetThenBytes(target: Bytes, writes: seq<Bytes>)
    requires |target| <= MAX_TARGET_LEN
    ensures ParseFrame(Concat(FrameOf(target) + writes), MAX_TARGET_LEN) == Parsed(target, Concat(writes))
  {
    ConcatAppend(FrameOf(target), writes);
    ConcatTwo(PutUint16(|target|), target);
    ParseFrameInvertsFrame(target, Concat(writes), MAX_TARGET_LEN);
  }

  /** A TCP user over a pool connection the client dialed: behind its handshake the client reads the
      target and then exactly the user's bytes, the server exactly the backend's. */
  lemma ReverseTcpCarrier(server: Conn, client: Conn, s: ServerEnv, c: ClientEnv, epoch: Bytes,
                          target: Bytes, fromUser: seq<Bytes>, fromBackend: seq<Bytes>)
    requires ValidPair(s, c, Pool(epoch)) && s.token == c.token && s.current == Some(epoch)
    requires |target| <= MAX_TARGET_LEN
    requires Exchanged(server, client, s, c, Pool(epoch), FrameOf(target) + fromUser, fromBackend)
    ensures var served, dialed := Serve(s, Readable(server)), Dial(c, Pool(epoch), Readable(client));
            && served.verdict == AcceptedPool(epoch) && dialed.answer == Joined
            && served.used <= |Readable(server)| && dialed.used <= |Readable(client)|
            && ParseFrame(Past(Readable(client), dialed.used), MAX_TARGET_LEN) == Parsed(target, Concat(fromUser))
            && Past(Readable(server), served.used) == Concat(fromBackend)
  {
    hide Readable, Exchanged, ParseFrame;
    HandedOverClean(server, client, s, c, Pool(epoch), FrameOf(target) + fromUser, fromBackend);
    TargetThenBytes(target, fromUser);
  }

  /** The same over a connection the server dialed. */
  lemma DirectTcpCarrier(server: Conn, client: Conn, s: ServerEnv, c: ClientEnv, epoch: Bytes,
                         target: Bytes, fromUser: seq<Bytes>, fromBackend: seq<Bytes>)
    requires ValidPair(s, c, Pool(epoch)) && s.token == c.token && s.current == Some(epoch)
    requires |target| <= MAX_TARGET_LEN
    requires Exchanged(client, server, s, c, Pool(epoch), fromBackend, FrameOf(target) + fromUser)
    ensures var served, dialed := Serve(s, Readable(client)), Dial(c, Pool(epoch), Readable(server));
            && served.verdict == AcceptedPool(epoch) && dialed.answer == Joined
            && served.used <= |Readable(client)| && dialed.used <= |Readable(server)|
            && ParseFrame(Past(Readable(client), served.used), MAX_TARGET_LEN) == Parsed(target, Concat(fromUser))
            && Past(Readable(server), dialed.used) == Concat(fromBackend)
  {
    hide Readable, Exchanged, ParseFrame;
    HandedOverClean(client, server, s, c, Pool(epoch), fromBackend, FrameOf(target) + fromUser);
    TargetThenBytes(target, fromUser);
  }
}
