/** The challenge-response handshake of protocol.go, both ends: each as a method over any
    connection, each proved against a function of the bytes it is given, and the two functions
    composed into an agreement theorem over every interleaving. */
module Handshake {
  import opened Bytes
  import opened Options
  import opened Transport
  import Framing

  const MAGIC: Bytes := [0x52, 0x4D, 0x54, 0x31] // "RMT1"
  const ROLE_CONTROL: byte := 1
  const ROLE_POOL: byte := 2
  const ACK_OK: byte := 1
  const ACK_BUSY: byte := 2
  const ACK_BAD_AUTH: byte := 3

  const CHALLENGE_SIZE := 16
  const TAG_SIZE := 32
  const EPOCH_SIZE := 8

  /** hmacTag: a keyed tag of fixed size, otherwise unconstrained. */
  type Mac = (Bytes, Bytes) -> Bytes

  ghost predicate TagSized(mac: Mac) {
    forall token: Bytes, challenge: Bytes {:trigger mac(token, challenge)} :: |mac(token, challenge)| == TAG_SIZE
  }

  /** The server's side of one handshake: its token, the random challenge it draws, the epoch
      published when a pool connection is checked, whether the control slot is taken, and the epoch
      it draws for a new control connection. */
  datatype ServerEnv = ServerEnv(mac: Mac, token: Bytes, challenge: Bytes, current: Option<Bytes>,
                                 busy: bool, drawn: Bytes)

  datatype ClientEnv = ClientEnv(mac: Mac, token: Bytes)

  datatype Role = Control | Pool(epoch: Bytes)

  ghost predicate ValidServer(e: ServerEnv) {
    TagSized(e.mac) && |e.challenge| == CHALLENGE_SIZE && |e.drawn| == EPOCH_SIZE
  }

  // ---- the server as a function of the bytes it receives ----

  datatype Admitted = Admitted(role: Role) | BadHeader | Truncated | BadTag | BadEpoch

  datatype Auth = Auth(result: Admitted, writes: seq<Bytes>, used: nat)

  function Authenticate(e: ServerEnv, input: Bytes): (a: Auth)
    ensures a.used <= |input|
  {
    if |input| < 5 then Auth(Truncated, [], |input|)
    else if input[..4] != MAGIC || (input[4] != ROLE_CONTROL && input[4] != ROLE_POOL) then
      Auth(BadHeader, [], 5)
    else if |input| < 37 then Auth(Truncated, [e.challenge], |input|)
    else if input[5..37] != e.mac(e.token, e.challenge) then
      Auth(BadTag, [e.challenge, [ACK_BAD_AUTH]], 37)
    else if input[4] == ROLE_CONTROL then Auth(Admitted(Control), [e.challenge], 37)
    else if |input| < 45 then Auth(Truncated, [e.challenge], |input|)
    else if e.current != Some(input[37..45]) then Auth(BadEpoch, [e.challenge, [ACK_BAD_AUTH]], 45)
    else Auth(Admitted(Pool(input[37..45])), [e.challenge], 45)
  }

  datatype Verdict = AcceptedControl(epoch: Bytes) | AcceptedPool(epoch: Bytes) | RefusedBusy | Rejected

  datatype ServerRun = ServerRun(verdict: Verdict, writes: seq<Bytes>, used: nat)

  function Serve(e: ServerEnv, input: Bytes): ServerRun {
    var a := Authenticate(e, input);
    match a.result
    case Admitted(Control) =>
      if e.busy then ServerRun(RefusedBusy, a.writes + [[ACK_BUSY]], a.used)
      else ServerRun(AcceptedControl(e.drawn), a.writes + [[ACK_OK], e.drawn], a.used)
    case Admitted(Pool(epoch)) => ServerRun(AcceptedPool(epoch), a.writes + [[ACK_OK]], a.used)
    case _ => ServerRun(Rejected, a.writes, a.used)
  }

  // ---- the client as a function of the bytes it receives ----

  datatype Answer = Established(epoch: Bytes) | Joined | Busy | BadAuth | Unexpected | Lost

  datatype ClientRun = ClientRun(answer: Answer, writes: seq<Bytes>, used: nat)

  function Header(role: Role): Bytes {
    MAGIC + [if role.Control? then ROLE_CONTROL else ROLE_POOL]
  }

  function Dial(e: ClientEnv, role: Role, input: Bytes): ClientRun {
    if |input| < 16 then ClientRun(Lost, [Header(role)], |input|)
    else
      var tag := e.mac(e.token, input[..16]);
      var writes := [Header(role), tag] + (if role.Pool? then [role.epoch] else []);
      if |input| < 17 then ClientRun(Lost, writes, |input|)
      else if role.Pool? then
        ClientRun(if input[16] == ACK_OK then Joined
                  else if input[16] == ACK_BUSY then Busy
                  else if input[16] == ACK_BAD_AUTH then BadAuth else Unexpected, writes, 17)
      else if input[16] == ACK_BUSY then ClientRun(Busy, writes, 17)
      else if input[16] == ACK_BAD_AUTH then ClientRun(BadAuth, writes, 17)
      else if input[16] != ACK_OK then ClientRun(Unexpected, writes, 17)
      else if |input| < 25 then ClientRun(Lost, writes, |input|)
      else ClientRun(Established(input[17..25]), writes, 25)
  }

  predicate Success(a: Answer) { a.Established? || a.Joined? }

  predicate Accepts(v: Verdict) { v.AcceptedControl? || v.AcceptedPool? }

  function ServerOut(e: ServerEnv, input: Bytes): Bytes { Concat(Serve(e, input).writes) }

  function ClientOut(e: ClientEnv, role: Role, input: Bytes): Bytes { Concat(Dial(e, role, input).writes) }

  // ---- agreement ----

  /** What the parties agree to depends on this alone: the tags match, and the slot is free or the
      presented epoch is the published one. */
  predicate Grants(s: ServerEnv, c: ClientEnv, role: Role) {
    && c.mac(c.token, s.challenge) == s.mac(s.token, s.challenge)
    && (if role.Control? then !s.busy else s.current == Some(role.epoch))
  }

  ghost predicate ValidPair(s: ServerEnv, c: ClientEnv, role: Role) {
    ValidServer(s) && s.mac == c.mac && (role.Pool? ==> |role.epoch| == EPOCH_SIZE)
  }

  /** All bytes the client sends during the handshake. */
  function ClientPart(s: ServerEnv, c: ClientEnv, role: Role): Bytes {
    Header(role) + c.mac(c.token, s.challenge) + (if role.Pool? then role.epoch else [])
  }

  /** All bytes the server sends during the handshake. */
  function ServerPart(s: ServerEnv, c: ClientEnv, role: Role): Bytes {
    s.challenge +
    if Grants(s, c, role) then [ACK_OK] + (if role.Control? then s.drawn else [])
    else if role.Control? && c.mac(c.token, s.challenge) == s.mac(s.token, s.challenge) then [ACK_BUSY]
    else [ACK_BAD_AUTH]
  }

  lemma ConcatTwo(x: Bytes, y: Bytes)
    ensures Concat([x, y]) == x + y
  {
    var both: seq<Bytes> := [x, y];
    assert both[1..] == [y];
    ConcatOne(y);
  }

  lemma ConcatThree(x: Bytes, y: Bytes, z: Bytes)
    ensures Concat([x, y, z]) == x + y + z
  {
    var all: seq<Bytes> := [x, y, z];
    assert all[1..] == [y, z];
    ConcatTwo(y, z);
  }

  /** The client speaks first and says the rest once the challenge is there. */
  lemma DialFacts(s: ServerEnv, c: ClientEnv, role: Role, down: Bytes)
    requires ValidPair(s, c, role)
    ensures Header(role) <= ClientOut(c, role, down)
    ensures |down| < 16 ==> ClientOut(c, role, down) == Header(role)
    ensures s.challenge <= down ==> ClientOut(c, role, down) == ClientPart(s, c, role)
  {
    ConcatOne(Header(role));
    if s.challenge <= down {
      assert down[..16] == s.challenge;
    }
    if |down| >= 16 {
      var tag := c.mac(c.token, down[..16]);
      ConcatTwo(Header(role), tag);
      if role.Pool? {
        ConcatThree(Header(role), tag, role.epoch);
        assert [Header(role), tag] + [role.epoch] == [Header(role), tag, role.epoch];
      } else {
        assert [Header(role), tag] + [] == [Header(role), tag];
      }
    }
  }

  /** Every list of writes the server can make, flattened. */
  lemma ServerWrites(s: ServerEnv)
    ensures Concat([s.challenge]) == s.challenge
    ensures Concat([s.challenge] + [[ACK_OK]]) == s.challenge + [ACK_OK]
    ensures Concat([s.challenge] + [[ACK_BUSY]]) == s.challenge + [ACK_BUSY]
    ensures Concat([s.challenge, [ACK_BAD_AUTH]]) == s.challenge + [ACK_BAD_AUTH]
    ensures Concat([s.challenge] + [[ACK_OK], s.drawn]) == s.challenge + [ACK_OK] + s.drawn
  {
    ConcatOne(s.challenge);
    ConcatTwo(s.challenge, [ACK_BAD_AUTH]);
    ConcatTwo(s.challenge, [ACK_BUSY]);
    ConcatTwo(s.challenge, [ACK_OK]);
    ConcatThree(s.challenge, [ACK_OK], s.drawn);
    assert [s.challenge] + [[ACK_OK], s.drawn] == [s.challenge, [ACK_OK], s.drawn];
    assert [s.challenge] + [[ACK_OK]] == [s.challenge, [ACK_OK]];
    assert [s.challenge] + [[ACK_BUSY]] == [s.challenge, [ACK_BUSY]];
  }

  /** The server answers the header with its challenge, and never says anything that is not the
      beginning of its full answer to this client. */
  lemma ServeFacts(s: ServerEnv, c: ClientEnv, role: Role, up: Bytes)
    requires ValidPair(s, c, role)
    ensures Header(role) <= up ==> s.challenge <= ServerOut(s, up)
    ensures up <= ClientPart(s, c, role) ==> ServerOut(s, up) <= ServerPart(s, c, role)
  {
    ServerWrites(s);
    if Header(role) <= up {
      assert up[..4] == MAGIC && up[4] == Header(role)[4];
    }
    if up <= ClientPart(s, c, role) && |up| >= 5 {
      assert Header(role) == ClientPart(s, c, role)[..5] == up[..5];
    }
    if up <= ClientPart(s, c, role) && |up| >= 37 {
      assert up[5..37] == ClientPart(s, c, role)[5..37] == c.mac(c.token, s.challenge);
      if |up| >= 45 {
        assert up[37..45] == ClientPart(s, c, role)[37..45] == role.epoch;
      }
    }
  }

  function Outcome(s: ServerEnv, c: ClientEnv, role: Role): Verdict {
    if Grants(s, c, role) then
      if role.Control? then AcceptedControl(s.drawn) else AcceptedPool(role.epoch)
    else if role.Control? && c.mac(c.token, s.challenge) == s.mac(s.token, s.challenge) then RefusedBusy
    else Rejected
  }

  lemma ServeComplete(s: ServerEnv, c: ClientEnv, role: Role, up: Bytes)
    requires ValidPair(s, c, role) && ClientPart(s, c, role) <= up
    ensures Serve(s, up).verdict == Outcome(s, c, role)
    ensures ServerOut(s, up) == ServerPart(s, c, role)
    ensures Grants(s, c, role) ==> Serve(s, up).used == |ClientPart(s, c, role)|
  {
    ServerWrites(s);
    var part := ClientPart(s, c, role);
    assert up[..|part|] == part;
    assert up[..4] == MAGIC && up[4] == Header(role)[4];
    assert up[5..37] == part[5..37] == c.mac(c.token, s.challenge);
    if role.Pool? {
      assert up[37..45] == part[37..45] == role.epoch;
    }
  }

  lemma DialComplete(s: ServerEnv, c: ClientEnv, role: Role, down: Bytes)
    requires ValidPair(s, c, role) && ServerPart(s, c, role) <= down
    ensures Success(Dial(c, role, down).answer) <==> Grants(s, c, role)
    ensures Grants(s, c, role) ==>
              && Dial(c, role, down).answer == (if role.Control? then Established(s.drawn) else Joined)
              && Dial(c, role, down).used == |ServerPart(s, c, role)|
    ensures !Grants(s, c, role) ==>
              Dial(c, role, down).answer == (if Outcome(s, c, role).RefusedBusy? then Busy else BadAuth)
  {
    var part := ServerPart(s, c, role);
    assert down[..16] == s.challenge;
    assert down[16] == part[16];
    if Grants(s, c, role) && role.Control? {
      assert down[17..25] == part[17..25] == s.drawn;
    }
  }

  /** Handshake agreement. Take any complete exchange: each side's bytes are what its code writes
      given all the bytes of the other side, followed by whatever it sends after succeeding. Then
      both sides succeed exactly when the handshake should be granted, with the same role and the
      same epoch; each has consumed exactly the other's handshake, so the next byte it reads is the
      first one after it; and a refusal is understood for what it is. */
  lemma Agreement(s: ServerEnv, c: ClientEnv, role: Role, up: Bytes, down: Bytes, more: Bytes, reply: Bytes)
    requires ValidPair(s, c, role)
    requires up == ClientOut(c, role, down) + more && down == ServerOut(s, up) + reply
    requires more != [] ==> Success(Dial(c, role, down).answer)
    requires reply != [] ==> Accepts(Serve(s, up).verdict)
    ensures Serve(s, up).verdict == Outcome(s, c, role)
    ensures Success(Dial(c, role, down).answer) <==> Grants(s, c, role)
    ensures Accepts(Serve(s, up).verdict) <==> Grants(s, c, role)
    ensures match Dial(c, role, down).answer
            case Established(epoch) => Serve(s, up).verdict == AcceptedControl(epoch)
            case Joined => Serve(s, up).verdict == AcceptedPool(role.epoch)
            case Busy => Serve(s, up).verdict == RefusedBusy
            case BadAuth => Serve(s, up).verdict == Rejected
            case _ => false
    ensures Grants(s, c, role) ==> up[Serve(s, up).used..] == more
                                   && down[Dial(c, role, down).used..] == reply
  {
    DialFacts(s, c, role, down);
    ServeFacts(s, c, role, up);
    assert s.challenge <= down;
    ServeComplete(s, c, role, up);
    DialComplete(s, c, role, down);
  }

  /** There always is such an exchange, whatever the two sides send after it. */
  lemma ExchangeExists(s: ServerEnv, c: ClientEnv, role: Role, more: Bytes, reply: Bytes)
    requires ValidPair(s, c, role) && (Grants(s, c, role) || (more == [] && reply == []))
    ensures var up, down := ClientPart(s, c, role) + more, ServerPart(s, c, role) + reply;
            up == ClientOut(c, role, down) + more && down == ServerOut(s, up) + reply
  {
    var up, down := ClientPart(s, c, role) + more, ServerPart(s, c, role) + reply;
    assert s.challenge <= ServerPart(s, c, role) <= down;
    DialFacts(s, c, role, down);
    ServeComplete(s, c, role, up);
  }

  /** With equal tokens, only a taken slot or an outdated epoch can stand in the way. */
  lemma EqualTokensSucceed(s: ServerEnv, c: ClientEnv, role: Role)
    requires ValidPair(s, c, role) && s.token == c.token
    ensures Grants(s, c, role) <==> (if role.Control? then !s.busy else s.current == Some(role.epoch))
    ensures Grants(s, c, role) ==> Accepts(Outcome(s, c, role))
  {
  }

  // ---- the wire format, against anybody ----

  /** What opens a handshake: "RMT1" and the role. */
  predicate OpensAs(input: Bytes, role: byte) { [0x52, 0x4D, 0x54, 0x31, role] <= input }

  /** The listener accepts exactly: a control header and the right tag while the slot is free, or a pool
      header, the right tag and the published epoch. */
  lemma AcceptsExactly(e: ServerEnv, input: Bytes)
    requires ValidServer(e)
    ensures var tagged := |input| >= 37 && input[5..37] == e.mac(e.token, e.challenge);
            && (Serve(e, input).verdict == AcceptedControl(e.drawn) <==> OpensAs(input, 1) && tagged && !e.busy)
            && (Serve(e, input).verdict.AcceptedControl? ==> Serve(e, input).verdict == AcceptedControl(e.drawn))
            && (Serve(e, input).verdict.AcceptedPool? <==>
                  OpensAs(input, 2) && tagged && |input| >= 45 && e.current == Some(input[37..45]))
            && (Serve(e, input).verdict == RefusedBusy <==> OpensAs(input, 1) && tagged && e.busy)
  {
    if |input| >= 5 {
      Opening(input);
    }
  }

  lemma Opening(input: Bytes)
    requires |input| >= 5
    ensures forall role: byte :: OpensAs(input, role) <==> input[..4] == MAGIC && input[4] == role
  {
    forall role: byte
      ensures OpensAs(input, role) <==> input[..4] == MAGIC && input[4] == role
    {
      assert input[..5] == input[..4] + [input[4]];
      assert MAGIC + [role] == [0x52, 0x4D, 0x54, 0x31, role];
    }
  }

  /** It says nothing at all to whoever does not open with the magic and a role; its challenge to
      whoever does; and then one byte of refusal to whoever answers it wrongly. */
  lemma AnswersExactly(e: ServerEnv, input: Bytes)
    requires ValidServer(e)
    ensures !OpensAs(input, 1) && !OpensAs(input, 2) ==> Serve(e, input).writes == []
    ensures OpensAs(input, 1) || OpensAs(input, 2) ==>
              var w := Serve(e, input).writes;
              && (|input| < 37 ==> w == [e.challenge])
              && (|input| >= 37 && input[5..37] != e.mac(e.token, e.challenge) ==> w == [e.challenge, [3]])
  {
    if |input| >= 5 {
      Opening(input);
    }
  }

  /** The dialer sends its header at once, and the tag of the first sixteen bytes it reads; it succeeds
      exactly when the next byte is 1 and, for control, eight more bytes follow, which are the epoch. */
  lemma DialsExactly(e: ClientEnv, role: Role, input: Bytes)
    ensures var run := Dial(e, role, input);
            && run.writes[0] == [0x52, 0x4D, 0x54, 0x31, if role.Control? then 1 else 2]
            && (|input| < 16 ==> |run.writes| == 1)
            && (|input| >= 16 ==>
                  |run.writes| == (if role.Control? then 2 else 3) && run.writes[1] == e.mac(e.token, input[..16])
                  && (role.Pool? ==> run.writes[2] == role.epoch))
            && (run.answer == Joined <==> role.Pool? && |input| >= 17 && input[16] == 1)
            && (run.answer.Established? <==> role.Control? && |input| >= 25 && input[16] == 1)
            && (run.answer.Established? ==> run.answer == Established(input[17..25]))
            && (run.answer == Busy <==> |input| >= 17 && input[16] == 2)
            && (run.answer == BadAuth <==> |input| >= 17 && input[16] == 3)
  {
  }

  // ---- every interleaving of the two programs ----

  /** Bytes sent so far in each direction. */
  datatype Wires = Wires(up: Bytes, down: Bytes)

  /** One side has seen some prefix of what was sent to it and sends some more of its answer. */
  ghost predicate Sends(s: ServerEnv, c: ClientEnv, role: Role, a: Wires, b: Wires, seen: nat) {
    || (seen <= |a.down| && b.down == a.down && a.up <= b.up <= ClientOut(c, role, a.down[..seen]))
    || (seen <= |a.up| && b.up == a.up && a.down <= b.down <= ServerOut(s, a.up[..seen]))
  }

  ghost predicate IsTrace(s: ServerEnv, c: ClientEnv, role: Role, trace: seq<Wires>, seen: seq<nat>) {
    && |trace| == |seen| + 1 && trace[0] == Wires([], [])
    && forall i :: 0 <= i < |seen| ==> Sends(s, c, role, trace[i], trace[i + 1], seen[i])
  }

  lemma SendsWithinParts(s: ServerEnv, c: ClientEnv, role: Role, a: Wires, b: Wires, seen: nat)
    requires ValidPair(s, c, role) && Sends(s, c, role, a, b, seen)
    requires a.up <= ClientPart(s, c, role) && a.down <= ServerPart(s, c, role)
    ensures b.up <= ClientPart(s, c, role) && b.down <= ServerPart(s, c, role)
  {
    if seen <= |a.down| {
      var d := a.down[..seen];
      DialFacts(s, c, role, d);
      assert d <= ServerPart(s, c, role);
      if |d| >= 16 {
        assert s.challenge == ServerPart(s, c, role)[..16] == d[..16];
      }
    }
    if seen <= |a.up| {
      ServeFacts(s, c, role, a.up[..seen]);
    }
  }

  /** The more of the server's answer the client has seen, the more it has to say. */
  lemma DialMonotone(s: ServerEnv, c: ClientEnv, role: Role, less: Bytes, more: Bytes)
    requires ValidPair(s, c, role) && less <= more <= ServerPart(s, c, role)
    ensures ClientOut(c, role, less) <= ClientOut(c, role, more)
  {
    DialFacts(s, c, role, less);
    DialFacts(s, c, role, more);
    if |less| >= 16 {
      assert s.challenge == ServerPart(s, c, role)[..16] == less[..16] == more[..16];
    }
  }

  /** And the other way round. */
  lemma ServeMonotone(s: ServerEnv, c: ClientEnv, role: Role, less: Bytes, more: Bytes)
    requires ValidPair(s, c, role) && less <= more <= ClientPart(s, c, role)
    ensures ServerOut(s, less) <= ServerOut(s, more)
  {
    var part := ClientPart(s, c, role);
    ServeFacts(s, c, role, more);
    ServerWrites(s);
    if |less| >= 37 {
      assert less[..4] == more[..4] == part[..4] && less[4] == more[4] == part[4];
      assert less[5..37] == more[5..37] == part[5..37];
      assert |less| >= 45 ==> less == more;
    } else if |less| >= 5 {
      assert Header(role) == part[..5] == less[..5] == more[..5];
      assert Concat([s.challenge]) == s.challenge;
    } else {
      assert ServerOut(s, less) == [];
    }
  }

  /** Whatever the scheduling and however the bytes are cut, the two programs only ever send parts
      of one fixed pair of byte strings and never more than their input so far calls for; and until
      both strings are complete one of the two has something left to send that it already knows. No
      interleaving deadlocks or changes the outcome. */
  lemma {:induction false} EveryInterleavingCompletes(s: ServerEnv, c: ClientEnv, role: Role,
                                                      trace: seq<Wires>, seen: seq<nat>)
    requires ValidPair(s, c, role) && IsTrace(s, c, role, trace, seen)
    ensures var last := trace[|seen|];
            && last.up <= ClientPart(s, c, role) && last.down <= ServerPart(s, c, role)
            && last.up <= ClientOut(c, role, last.down) && last.down <= ServerOut(s, last.up)
            && (last == Wires(ClientPart(s, c, role), ServerPart(s, c, role))
                || last.up < ClientOut(c, role, last.down) || last.down < ServerOut(s, last.up))
    decreases |seen|
  {
    var last := trace[|seen|];
    if |seen| > 0 {
      var k := |seen| - 1;
      EveryInterleavingCompletes(s, c, role, trace[..k + 1], seen[..k]);
      SendsWithinParts(s, c, role, trace[k], trace[k + 1], seen[k]);
      SendsWithinDue(s, c, role, trace[k], trace[k + 1], seen[k]);
    }
    if ClientOut(c, role, last.down) == last.up && ServerOut(s, last.up) == last.down {
      DialFacts(s, c, role, last.down);
      ServeFacts(s, c, role, last.up);
      ServeComplete(s, c, role, last.up);
    }
  }

  lemma SendsWithinDue(s: ServerEnv, c: ClientEnv, role: Role, a: Wires, b: Wires, seen: nat)
    requires ValidPair(s, c, role) && Sends(s, c, role, a, b, seen)
    requires a.up <= ClientPart(s, c, role) && a.down <= ServerPart(s, c, role)
    requires b.up <= ClientPart(s, c, role) && b.down <= ServerPart(s, c, role)
    requires a.up <= ClientOut(c, role, a.down) && a.down <= ServerOut(s, a.up)
    ensures b.up <= ClientOut(c, role, b.down) && b.down <= ServerOut(s, b.up)
  {
    hide ClientOut, ServerOut;
    if seen <= |a.down| && b.down == a.down && a.up <= b.up <= ClientOut(c, role, a.down[..seen]) {
      DialMonotone(s, c, role, a.down[..seen], a.down);
      ServeMonotone(s, c, role, a.up, b.up);
    } else {
      ServeMonotone(s, c, role, a.up[..seen], a.up);
      DialMonotone(s, c, role, a.down, b.down);
    }
  }

  // ---- the programs ----

  /** io.ReadFull into a fresh array. */
  method ReadBytes(c: Conn, n: nat, ghost log: seq<Bytes>) returns (data: Bytes, ok: bool)
    requires Valid(c) && Said(c, log)
    modifies Footprint(c)
    ensures Said(c, log)
    ensures ok <==> |old(Readable(c))| >= n
    ensures ok ==> data == old(Readable(c))[..n] && Readable(c) == old(Readable(c))[n..]
  {
    var buf := new byte[n];
    ok := ReadFull(c, buf, n);
    data := buf[..];
  }

  method ServerHandshake(c: Conn, e: ServerEnv, ghost log: seq<Bytes>) returns (result: Admitted)
    requires Valid(c) && ValidServer(e) && Said(c, log)
    modifies Footprint(c)
    ensures var a := Authenticate(e, old(Readable(c)));
            && result == a.result
            && Said(c, log + a.writes)
            && (result.Admitted? ==> Readable(c) == old(Readable(c))[a.used..])
  {
    hide Said;
    hide Readable;
    hide Sent;
    ghost var input := Readable(c);
    var hdr, ok := ReadBytes(c, 5, log);
    assert log + [] == log;
    if !ok {
      return Truncated;
    }
    assert hdr == input[..5];
    if hdr[..4] != MAGIC || (hdr[4] != ROLE_CONTROL && hdr[4] != ROLE_POOL) {
      return BadHeader;
    }
    Put(c, e.challenge, log);
    var tag;
    tag, ok := ReadBytes(c, 32, log + [e.challenge]);
    if !ok {
      return Truncated;
    }
    assert tag == input[5..][..32] == input[5..37];
    if tag != e.mac(e.token, e.challenge) {
      Put(c, [ACK_BAD_AUTH], log + [e.challenge]);
      assert log + [e.challenge] + [[ACK_BAD_AUTH]] == log + [e.challenge, [ACK_BAD_AUTH]];
      return BadTag;
    }
    if hdr[4] == ROLE_CONTROL {
      return Admitted(Control);
    }
    var epoch;
    epoch, ok := ReadBytes(c, 8, log + [e.challenge]);
    if !ok {
      return Truncated;
    }
    assert epoch == input[5..][32..][..8] == input[37..45];
    if e.current != Some(epoch) {
      Put(c, [ACK_BAD_AUTH], log + [e.challenge]);
      assert log + [e.challenge] + [[ACK_BAD_AUTH]] == log + [e.challenge, [ACK_BAD_AUTH]];
      return BadEpoch;
    }
    assert input[5..][32..][8..] == input[45..];
    result := Admitted(Pool(epoch));
  }

  /** admitTunnelConn up to the acknowledgement. */
  method AdmitTunnelConn(c: Conn, e: ServerEnv, ghost log: seq<Bytes>) returns (verdict: Verdict)
    requires Valid(c) && ValidServer(e) && Said(c, log)
    modifies Footprint(c)
    ensures var run := Serve(e, old(Readable(c)));
            && verdict == run.verdict
            && Said(c, log + run.writes)
            && (Accepts(verdict) ==> Readable(c) == old(Readable(c))[run.used..])
  {
    hide Said;
    hide Readable;
    hide Sent;
    ghost var a := Authenticate(e, Readable(c));
    var res := ServerHandshake(c, e, log);
    match res
    case Admitted(Control) =>
      if e.busy {
        Put(c, [ACK_BUSY], log + a.writes);
        assert log + a.writes + [[ACK_BUSY]] == log + (a.writes + [[ACK_BUSY]]);
        return RefusedBusy;
      }
      Put(c, [ACK_OK], log + a.writes);
      Put(c, e.drawn, log + a.writes + [[ACK_OK]]);
      assert log + a.writes + [[ACK_OK]] + [e.drawn] == log + (a.writes + [[ACK_OK], e.drawn]);
      verdict := AcceptedControl(e.drawn);
    case Admitted(Pool(epoch)) =>
      Put(c, [ACK_OK], log + a.writes);
      assert log + a.writes + [[ACK_OK]] == log + (a.writes + [[ACK_OK]]);
      verdict := AcceptedPool(epoch);
    case _ =>
      verdict := Rejected;
  }

  method ClientHandshakeControl(c: Conn, e: ClientEnv, ghost log: seq<Bytes>) returns (answer: Answer)
    requires Valid(c) && TagSized(e.mac) && Said(c, log)
    modifies Footprint(c)
    ensures var run := Dial(e, Control, old(Readable(c)));
            && answer == run.answer
            && Said(c, log + run.writes)
            && (Success(answer) ==> Readable(c) == old(Readable(c))[run.used..])
  {
    hide Said;
    hide Readable;
    hide Sent;
    ghost var input := Readable(c);
    Put(c, Header(Control), log);
    var challenge, ok := ReadBytes(c, 16, log + [Header(Control)]);
    if !ok {
      return Lost;
    }
    assert challenge == input[..16];
    var tag := e.mac(e.token, challenge);
    Put(c, tag, log + [Header(Control)]);
    assert log + [Header(Control)] + [tag] == log + ([Header(Control), tag] + []);
    var ack;
    ack, ok := ReadBytes(c, 1, log + [Header(Control)] + [tag]);
    if !ok {
      return Lost;
    }
    assert ack[0] == input[16];
    if ack[0] == ACK_BUSY {
      return Busy;
    } else if ack[0] == ACK_BAD_AUTH {
      return BadAuth;
    } else if ack[0] != ACK_OK {
      return Unexpected;
    }
    var epoch;
    epoch, ok := ReadBytes(c, 8, log + [Header(Control)] + [tag]);
    if !ok {
      return Lost;
    }
    assert input[16..][1..] == input[17..];
    assert epoch == input[17..][..8] == input[17..25];
    assert input[17..][8..] == input[25..];
    answer := Established(epoch);
  }

  method ClientHandshakePool(c: Conn, e: ClientEnv, epoch: Bytes, ghost log: seq<Bytes>) returns (answer: Answer)
    requires Valid(c) && TagSized(e.mac) && Said(c, log)
    modifies Footprint(c)
    ensures var run := Dial(e, Pool(epoch), old(Readable(c)));
            && answer == run.answer
            && Said(c, log + run.writes)
            && (Success(answer) ==> Readable(c) == old(Readable(c))[run.used..])
  {
    hide Said;
    hide Readable;
    hide Sent;
    ghost var input := Readable(c);
    Put(c, Header(Pool(epoch)), log);
    var challenge, ok := ReadBytes(c, 16, log + [Header(Pool(epoch))]);
    if !ok {
      return Lost;
    }
    assert challenge == input[..16];
    var tag := e.mac(e.token, challenge);
    Put(c, tag, log + [Header(Pool(epoch))]);
    Put(c, epoch, log + [Header(Pool(epoch))] + [tag]);
    assert log + [Header(Pool(epoch))] + [tag] + [epoch]
        == log + ([Header(Pool(epoch)), tag] + [epoch]);
    var ack;
    ack, ok := ReadBytes(c, 1, log + [Header(Pool(epoch))] + [tag] + [epoch]);
    if !ok {
      return Lost;
    }
    assert ack[0] == input[16];
    assert input[16..][1..] == input[17..];
    answer := if ack[0] == ACK_OK then Joined
              else if ack[0] == ACK_BUSY then Busy
              else if ack[0] == ACK_BAD_AUTH then BadAuth
              else Unexpected;
  }
}
