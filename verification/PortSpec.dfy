/** The notation for forwarded ports (ports.go): parsing a line of them, and the printer that shows a
    port back in the form it could have been typed in. */
module PortSpec {
  import opened Counting
  import opened Options
  import opened Text

  datatype PortMap = PortMap(listen: string, target: string, udp: bool)

  datatype Result<T> = Ok(value: T) | Bad

  const ANY := "0.0.0.0:"
  const LOOPBACK := "127.0.0.1:"

  predicate ValidPort(s: string) {
    var n := Atoi(s);
    n.Some? && 0 < n.value <= 65535
  }

  /** A port is written with an optional plus sign and decimal digits, so no separator of the
      notation and no white space can stand in it. */
  lemma PortCharacters(s: string)
    requires ValidPort(s)
    ensures s != "" && Trimmed(s)
    ensures '=' !in s && ':' !in s && ',' !in s && '|' !in s
  {
    var digits := if s[0] == '+' || s[0] == '-' then s[1..] else s;
    assert Digits(digits);
    assert forall i :: 0 < i < |s| ==> '0' <= s[i] <= '9';
  }

  /** Which texts are ports: an optional plus sign, any zeros, and the usual notation of a number from 1
      to 65535. */
  lemma PortsExactly(s: string)
    ensures ValidPort(s) <==>
            exists sign: string, k: nat, n: nat ::
              IsPortText(s, sign, k, n) && 1 <= n <= 65535
  {
    if ValidPort(s) {
      var digits := if s[0] == '+' then s[1..] else s;
      assert s[0] != '-';
      var sign: string := if s[0] == '+' then "+" else "";
      assert s == sign + digits;
      var k := DigitsAreNumerals(digits);
      assert IsPortText(s, sign, k, Decimal(digits));
    }
    if exists sign: string, k: nat, n: nat :: IsPortText(s, sign, k, n) && 1 <= n <= 65535 {
      var sign: string, k: nat, n: nat :| IsPortText(s, sign, k, n) && 1 <= n <= 65535;
      NumeralIsPort(sign, k, n);
    }
  }

  predicate IsPortText(s: string, sign: string, k: nat, n: nat) {
    (sign == "" || sign == "+") && s == sign + (Zeros(k) + Numeral(n))
  }

  lemma NumeralIsPort(sign: string, k: nat, n: nat)
    requires (sign == "" || sign == "+") && 1 <= n <= 65535
    ensures ValidPort(sign + (Zeros(k) + Numeral(n)))
  {
    DecimalOfNumeral(k, n);
    hide Decimal, Numeral, Zeros, Digits;
    DigitsNoSign(Zeros(k) + Numeral(n));
    SignedIsPort(sign, Zeros(k) + Numeral(n), n);
  }

  lemma DigitsNoSign(digits: string)
    requires Digits(digits)
    ensures digits[0] != '+' && digits[0] != '-'
  {
  }

  lemma SignedIsPort(sign: string, digits: string, n: nat)
    requires (sign == "" || sign == "+") && 1 <= n <= 65535
    requires Digits(digits) && Decimal(digits) == n && digits[0] != '+' && digits[0] != '-'
    ensures ValidPort(sign + digits)
  {
    hide Digits, Decimal;
    var s := sign + digits;
    if sign == "+" {
      assert s[0] == '+' && s[1..] == digits;
    } else {
      assert s == digits;
    }
  }

  /** No backend between the bars is blank. */
  predicate BackendsNamed(target: string) {
    var parts := Split(target, '|');
    forall i :: 0 <= i < |parts| ==> TrimSpace(parts[i]) != ""
  }

  function ParsePortSpec(spec: string): Result<PortMap> {
    var eq := IndexOf(spec, '=');
    if eq >= 0 then Explicit(TrimSpace(spec[..eq]), TrimSpace(spec[eq + 1..]))
    else
      var colon := IndexOf(spec, ':');
      if colon >= 0 then OnLoopback(TrimSpace(spec[..colon]), TrimSpace(spec[colon + 1..]))
      else OnLoopback(spec, spec)
  }

  function Explicit(port: string, target: string): Result<PortMap> {
    if !ValidPort(port) || target == "" || !BackendsNamed(target) then Bad
    else Ok(PortMap(ANY + port, target, false))
  }

  function OnLoopback(port: string, targetPort: string): Result<PortMap> {
    if !ValidPort(port) || !ValidPort(targetPort) then Bad
    else Ok(PortMap(ANY + port, LOOPBACK + targetPort, false))
  }

  function TrimPrefix(s: string, prefix: string): string {
    if prefix <= s then s[|prefix|..] else s
  }

  function FormatPortSpec(pm: PortMap): string {
    var port := TrimPrefix(pm.listen, ANY);
    if pm.target == LOOPBACK + port then port
    else if LOOPBACK <= pm.target then port + ":" + TrimPrefix(pm.target, LOOPBACK)
    else port + "=" + pm.target
  }

  // ---- what the parser can return ----

  predicate WellFormed(pm: PortMap) {
    && ANY <= pm.listen && ValidPort(pm.listen[|ANY|..])
    && pm.target != "" && Trimmed(pm.target) && BackendsNamed(pm.target) && !pm.udp
  }

  lemma ExplicitIsWellFormed(port: string, target: string)
    requires Explicit(port, target).Ok? && Trimmed(target)
    ensures WellFormed(Explicit(port, target).value)
  {
    hide ValidPort, BackendsNamed;
    assert (ANY + port)[|ANY|..] == port;
  }

  lemma OnLoopbackIsWellFormed(port: string, targetPort: string)
    requires OnLoopback(port, targetPort).Ok?
    ensures WellFormed(OnLoopback(port, targetPort).value)
    ensures ',' !in OnLoopback(port, targetPort).value.target
  {
    hide ValidPort, TrimSpace, Split;
    PortCharacters(targetPort);
    assert (ANY + port)[|ANY|..] == port;
    var target := LOOPBACK + targetPort;
    assert target[|target| - 1] == targetPort[|targetPort| - 1];
    SplitOne(target, '|');
    assert TrimSpace(target) == target;
  }

  /** Every result of the parser is well formed, */
  lemma ParsedIsWellFormed(spec: string)
    requires ParsePortSpec(spec).Ok?
    ensures WellFormed(ParsePortSpec(spec).value)
    ensures ',' !in spec ==> ',' !in ParsePortSpec(spec).value.target
  {
    hide WellFormed, Explicit, OnLoopback, TrimSpace;
    var eq, colon := IndexOf(spec, '='), IndexOf(spec, ':');
    if eq >= 0 {
      var port, target := TrimSpace(spec[..eq]), TrimSpace(spec[eq + 1..]);
      ExplicitIsWellFormed(port, target);
      if ',' !in spec {
        TrimAddsNothing(spec[eq + 1..], ',');
        ExplicitTarget(port, target);
      }
    } else if colon >= 0 {
      OnLoopbackIsWellFormed(TrimSpace(spec[..colon]), TrimSpace(spec[colon + 1..]));
    } else {
      OnLoopbackIsWellFormed(spec, spec);
    }
  }

  lemma ExplicitTarget(port: string, target: string)
    requires Explicit(port, target).Ok?
    ensures Explicit(port, target).value.target == target
  {
  }

  lemma ParseExplicitForm(port: string, target: string)
    requires ValidPort(port) && Trimmed(target)
    ensures ParsePortSpec(port + "=" + target) == Explicit(port, target)
  {
    hide ValidPort, Explicit, IndexOf;
    var spec := port + "=" + target;
    PortCharacters(port);
    IndexOfFirst(port, '=', target);
    assert spec[..|port|] == port && spec[|port| + 1..] == target;
  }

  lemma ParseColonForm(port: string, rest: string)
    requires ValidPort(port) && '=' !in rest
    ensures ParsePortSpec(port + ":" + rest) == OnLoopback(port, TrimSpace(rest))
  {
    hide ValidPort, OnLoopback, IndexOf;
    var spec := port + ":" + rest;
    PortCharacters(port);
    assert '=' !in spec;
    IndexOfFirst(port, ':', rest);
    assert spec[..|port|] == port && spec[|port| + 1..] == rest;
  }

  /** and every well-formed port map is the result for some text: its explicit form. */
  lemma ExplicitForm(pm: PortMap)
    requires WellFormed(pm)
    ensures ParsePortSpec(pm.listen[|ANY|..] + "=" + pm.target) == Ok(pm)
  {
    hide ValidPort, BackendsNamed, Trimmed;
    var port := pm.listen[|ANY|..];
    assert pm.listen == ANY + port;
    ParseExplicitForm(port, pm.target);
  }

  lemma ParserReturns(pm: PortMap)
    ensures WellFormed(pm) <==> exists spec :: ParsePortSpec(spec) == Ok(pm)
  {
    hide ParsePortSpec, ValidPort, BackendsNamed;
    if WellFormed(pm) {
      ExplicitForm(pm);
    } else if exists spec :: ParsePortSpec(spec) == Ok(pm) {
      var spec :| ParsePortSpec(spec) == Ok(pm);
      ParsedIsWellFormed(spec);
    }
  }

  // ---- white space ----

  lemma SpaceIsNoSeparator(pad: string)
    requires AllSpace(pad)
    ensures '=' !in pad && ':' !in pad && ',' !in pad
  {
  }

  /** White space around the port and the target does not matter in the explicit form, whatever the
      two are, */
  lemma PaddedExplicit(a: string, port: string, b: string, c: string, target: string, d: string)
    requires AllSpace(a) && AllSpace(b) && AllSpace(c) && AllSpace(d)
    requires Trimmed(port) && Trimmed(target) && '=' !in port
    ensures ParsePortSpec((a + port + b) + "=" + (c + target + d)) == ParsePortSpec(port + "=" + target)
    ensures ParsePortSpec(port + "=" + target) == Explicit(port, target)
  {
    hide Explicit, OnLoopback, AllSpace, IndexOf, TrimSpace, Trimmed;
    SpaceIsNoSeparator(a);
    SpaceIsNoSeparator(b);
    TrimSkipsBoth(a, port, b);
    TrimSkipsBoth(c, target, d);
    SplitsAtEquals(a + port + b, c + target + d);
    assert AllSpace("") by { NoSpace(); }
    TrimSkipsBoth("", port, "");
    TrimSkipsBoth("", target, "");
    assert "" + port + "" == port && "" + target + "" == target;
    SplitsAtEquals(port, target);
  }

  lemma NoSpace()
    ensures AllSpace("")
  {
  }

  lemma SplitsAtEquals(left: string, right: string)
    requires '=' !in left
    ensures ParsePortSpec(left + "=" + right) == Explicit(TrimSpace(left), TrimSpace(right))
  {
    hide Explicit, OnLoopback, IndexOf, TrimSpace;
    IndexOfFirst(left, '=', right);
    var spec := left + "=" + right;
    assert spec[..|left|] == left && spec[|left| + 1..] == right;
  }

  /** nor around the two ports of the short form. */
  lemma PaddedShort(a: string, port: string, b: string, c: string, target: string, d: string)
    requires AllSpace(a) && AllSpace(b) && AllSpace(c) && AllSpace(d)
    requires Trimmed(port) && Trimmed(target) && ':' !in port && '=' !in port && '=' !in target
    ensures ParsePortSpec((a + port + b) + ":" + (c + target + d)) == ParsePortSpec(port + ":" + target)
    ensures ParsePortSpec(port + ":" + target) == OnLoopback(port, target)
  {
    hide Explicit, OnLoopback, AllSpace, IndexOf, TrimSpace, Trimmed;
    SpaceIsNoSeparator(a);
    SpaceIsNoSeparator(b);
    SpaceIsNoSeparator(c);
    SpaceIsNoSeparator(d);
    TrimSkipsBoth(a, port, b);
    TrimSkipsBoth(c, target, d);
    SplitsAtColon(a + port + b, c + target + d);
    assert AllSpace("") by { NoSpace(); }
    TrimSkipsBoth("", port, "");
    TrimSkipsBoth("", target, "");
    assert "" + port + "" == port && "" + target + "" == target;
    SplitsAtColon(port, target);
  }

  lemma SplitsAtColon(left: string, right: string)
    requires '=' !in left && ':' !in left && '=' !in right
    ensures ParsePortSpec(left + ":" + right) == OnLoopback(TrimSpace(left), TrimSpace(right))
  {
    hide Explicit, OnLoopback, IndexOf, TrimSpace;
    IndexOfFirst(left, ':', right);
    var spec := left + ":" + right;
    assert '=' !in spec;
    assert spec[..|left|] == left && spec[|left| + 1..] == right;
  }

  // ---- the round trip ----

  /** What goes wrong when it does: the printer takes any target on the loopback address for a port
      number, though several backends, say, may follow. */
  predicate PrintsLoopback(pm: PortMap) {
    LOOPBACK <= pm.target && !ValidPort(pm.target[|LOOPBACK|..])
  }

  lemma ColonForm(port: string, rest: string)
    requires ValidPort(port) && Trimmed(LOOPBACK + rest)
    ensures ParsePortSpec(port + ":" + rest) == Ok(PortMap(ANY + port, LOOPBACK + rest, false))
            <==> ValidPort(rest)
  {
    hide ValidPort, BackendsNamed, TrimSpace, IndexOf;
    var spec := port + ":" + rest;
    assert (LOOPBACK + rest)[|LOOPBACK|..] == rest;
    if ValidPort(rest) {
      PortCharacters(rest);
    }
    if '=' in rest {
      EqualsAfterColon(port, rest);
      assert spec[|port| + 1..] == rest;
      assert '=' in spec;
      var before := TrimSpace(spec[..IndexOf(spec, '=')]);
      assert (ANY + before)[|ANY|..] == before && (ANY + port)[|ANY|..] == port;
    } else {
      ParseColonForm(port, rest);
      var targetPort := TrimSpace(rest);
      assert (LOOPBACK + targetPort)[|LOOPBACK|..] == targetPort;
    }
  }

  /** With an equals sign in the text, everything before it would have to be the port, colon and all. */
  lemma EqualsAfterColon(port: string, rest: string)
    requires ValidPort(port) && '=' in rest
    ensures TrimSpace((port + ":" + rest)[..IndexOf(port + ":" + rest, '=')]) != port
  {
    hide ValidPort, IndexOf, TrimSpace;
    PortCharacters(port);
    var i := IndexOf(rest, '=');
    var front, back := rest[..i], rest[i + 1..];
    var head := port + ":" + front;
    assert port + ":" + rest == head + "=" + back;
    IndexOfFirst(head, '=', back);
    assert (head + "=" + back)[..|head|] == head;
    TrimKeepsColon(port, front);
  }

  lemma TrimKeepsColon(port: string, more: string)
    requires port != "" && Trimmed(port) && ':' !in port
    ensures TrimSpace(port + ":" + more) != port
  {
    hide TrimRight;
    var text := port + ":" + more;
    assert text[|port|] == ':';
    assert TrimLeft(text) == text;
    assert !IsSpace(text[|port|..][0]);
  }

  /** formatPortSpec is the parser's inverse exactly off that case. */
  lemma RoundTripExactly(pm: PortMap)
    requires WellFormed(pm)
    ensures ParsePortSpec(FormatPortSpec(pm)) == Ok(pm) <==> !PrintsLoopback(pm)
  {
    hide ValidPort, BackendsNamed, ParsePortSpec;
    var port := pm.listen[|ANY|..];
    assert pm.listen == ANY + port;
    PortCharacters(port);
    if pm.target == LOOPBACK + port {
      BarePort(port);
    } else if LOOPBACK <= pm.target {
      var rest := pm.target[|LOOPBACK|..];
      assert pm.target == LOOPBACK + rest;
      ColonForm(port, rest);
    } else {
      ExplicitForm(pm);
    }
  }

  lemma BarePort(port: string)
    requires ValidPort(port)
    ensures ParsePortSpec(port) == Ok(PortMap(ANY + port, LOOPBACK + port, false))
  {
    hide ValidPort;
    PortCharacters(port);
  }

  /** So no target that begins on the loopback address and lists several backends round-trips. */
  lemma SeveralLoopbackBackends(pm: PortMap)
    requires WellFormed(pm) && LOOPBACK <= pm.target && '|' in pm.target
    ensures ParsePortSpec(FormatPortSpec(pm)) != Ok(pm)
  {
    hide ParsePortSpec, FormatPortSpec;
    var rest := pm.target[|LOOPBACK|..];
    assert pm.target == LOOPBACK + rest;
    if ValidPort(rest) {
      PortCharacters(rest);
      assert false;
    }
    RoundTripExactly(pm);
  }

  lemma TwoLoopbackBackends(port: string, first: string, second: string)
    requires ValidPort(port) && LOOPBACK <= first && Trimmed(first) && Trimmed(second) && second != ""
    requires '|' !in first && '|' !in second
    ensures var pm := PortMap(ANY + port, first + "|" + second, false);
            && ParsePortSpec(port + "=" + (first + "|" + second)) == Ok(pm)
            && ParsePortSpec(FormatPortSpec(pm)) != Ok(pm)
  {
    hide ParsePortSpec, FormatPortSpec, ValidPort, BackendsNamed;
    var target := first + "|" + second;
    var pm := PortMap(ANY + port, target, false);
    assert pm.listen[|ANY|..] == port;
    TwoBackends(first, second);
    assert target[|first|] == '|';
    ExplicitForm(pm);
    SeveralLoopbackBackends(pm);
  }

  /** One of them, as a user may write it: what is printed does not parse. */
  lemma LoopbackBackendsDoNotRoundTrip()
    ensures var pm := PortMap("0.0.0.0:443", "127.0.0.1:1|127.0.0.1:2", false);
            && ParsePortSpec("443=127.0.0.1:1|127.0.0.1:2") == Ok(pm)
            && ParsePortSpec(FormatPortSpec(pm)) != Ok(pm)
  {
    hide ParsePortSpec, FormatPortSpec, ValidPort;
    var first, second := "127.0.0.1:1", "127.0.0.1:2";
    Port443();
    TwoLoopbackBackends("443", first, second);
    assert ANY + "443" == "0.0.0.0:443";
    assert first + "|" + second == "127.0.0.1:1|127.0.0.1:2";
    assert "443" + "=" + "127.0.0.1:1|127.0.0.1:2" == "443=127.0.0.1:1|127.0.0.1:2";
  }

  lemma Port443()
    ensures ValidPort("443")
  {
    var port := "443";
    assert Decimal(port[..2]) == 44 by {
      assert port[..2][..1] == "4";
      assert Decimal("4") == 4;
    }
    assert Atoi(port) == Some(443);
  }

  lemma TwoBackends(first: string, second: string)
    requires Trimmed(first) && Trimmed(second) && first != "" && second != ""
    requires '|' !in first && '|' !in second
    ensures BackendsNamed(first + "|" + second)
  {
    hide TrimLeft, TrimRight;
    SplitFirst(first, '|', second);
    SplitOne(second, '|');
    assert TrimSpace(first) == first && TrimSpace(second) == second;
  }

  lemma TrimNoLonger(s: string)
    ensures |TrimSpace(s)| <= |s|
  {
  }

  lemma ExplicitOk(port: string, target: string)
    requires Explicit(port, target).Ok?
    ensures Explicit(port, target).value == PortMap(ANY + port, target, false)
  {
    hide ValidPort, BackendsNamed;
  }

  lemma OnLoopbackOk(port: string, targetPort: string)
    requires OnLoopback(port, targetPort).Ok?
    ensures OnLoopback(port, targetPort).value == PortMap(ANY + port, LOOPBACK + targetPort, false)
  {
    hide ValidPort;
  }

  /** The parts of a text that the parser reads a port map from. */
  lemma ParsedParts(spec: string) returns (port: string, rest: string, loopback: bool)
    requires ParsePortSpec(spec).Ok?
    ensures ParsePortSpec(spec).value == PortMap(ANY + port, if loopback then LOOPBACK + rest else rest, false)
    ensures |port| + 1 + |rest| <= |spec| || (loopback && port == rest && |port| <= |spec|)
  {
    hide Explicit, OnLoopback, TrimSpace, IndexOf;
    var eq, colon := IndexOf(spec, '='), IndexOf(spec, ':');
    if eq >= 0 {
      port, rest, loopback := TrimSpace(spec[..eq]), TrimSpace(spec[eq + 1..]), false;
      TrimNoLonger(spec[..eq]);
      TrimNoLonger(spec[eq + 1..]);
      ExplicitOk(port, rest);
    } else if colon >= 0 {
      port, rest, loopback := TrimSpace(spec[..colon]), TrimSpace(spec[colon + 1..]), true;
      TrimNoLonger(spec[..colon]);
      TrimNoLonger(spec[colon + 1..]);
      OnLoopbackOk(port, rest);
    } else {
      port, rest, loopback := spec, spec, true;
      OnLoopbackOk(port, rest);
    }
  }

  /** The printer chooses the shortest text there is: no text that parses to a port map is shorter than
      its printed form. */
  lemma PrintedIsShortest(spec: string)
    requires ParsePortSpec(spec).Ok?
    ensures |FormatPortSpec(ParsePortSpec(spec).value)| <= |spec|
  {
    hide ParsePortSpec, FormatPortSpec;
    var port, rest, loopback := ParsedParts(spec);
    if loopback {
      PrintedLoopback(port, rest);
    } else {
      PrintedLength(port, rest);
    }
  }

  lemma PrintedLength(port: string, target: string)
    ensures |FormatPortSpec(PortMap(ANY + port, target, false))| <= |port| + 1 + |target|
  {
    assert (ANY + port)[|ANY|..] == port;
  }

  /** A target on the loopback address is printed as its port, or not at all when that is the port
      listened on. */
  lemma PrintedLoopback(port: string, targetPort: string)
    ensures FormatPortSpec(PortMap(ANY + port, LOOPBACK + targetPort, false))
            == if targetPort == port then port else port + ":" + targetPort
  {
    assert (ANY + port)[|ANY|..] == port && (LOOPBACK + targetPort)[|LOOPBACK|..] == targetPort;
    assert (LOOPBACK + port)[|LOOPBACK|..] == port;
  }

  // ---- a line of them ----

  function ParseParts(parts: seq<string>): Result<seq<PortMap>> {
    if parts == [] then Ok([])
    else
      var rest := ParseParts(parts[..|parts| - 1]);
      var part := TrimSpace(parts[|parts| - 1]);
      if rest.Bad? || part == "" then rest
      else
        var pm := ParsePortSpec(part);
        if pm.Bad? then Bad else Ok(rest.value + [pm.value])
  }

  lemma {:induction false} BadPartSpoils(parts: seq<string>, n: nat)
    requires n <= |parts| && ParseParts(parts[..n]).Bad?
    ensures ParseParts(parts).Bad?
    decreases |parts|
  {
    if n < |parts| {
      assert parts[..|parts| - 1][..n] == parts[..n];
      BadPartSpoils(parts[..|parts| - 1], n);
    } else {
      assert parts[..n] == parts;
    }
  }

  /** What a line means: its parts in order, blank ones skipped; a bad part, or nothing but blanks,
      makes the whole line bad. */
  function LineMeans(line: string): Result<seq<PortMap>> {
    var all := ParseParts(Split(line, ','));
    if all == Ok([]) then Bad else all
  }

  /** The line's parts that are not blank all parse. */
  ghost predicate PartsParse(parts: seq<string>) {
    forall i :: 0 <= i < |parts| && TrimSpace(parts[i]) != "" ==> ParsePortSpec(TrimSpace(parts[i])).Ok?
  }

  function Entry(part: string): PortMap {
    var r := ParsePortSpec(TrimSpace(part));
    if r.Ok? then r.value else PortMap("", "", false)
  }

  lemma {:induction false} PartsExactly(parts: seq<string>) returns (at: seq<nat>)
    ensures ParseParts(parts).Ok? <==> PartsParse(parts)
    ensures ParseParts(parts).Ok? ==>
              Sifted(parts, ParseParts(parts).value, at, (p: string) => TrimSpace(p) != "", (p: string) => Entry(p))
  {
    hide ParsePortSpec, TrimSpace, Sifted;
    at := [];
    var good, image := (p: string) => TrimSpace(p) != "", (p: string) => Entry(p);
    if parts == [] {
      NothingSifted(good, image);
    } else {
      var init, last := parts[..|parts| - 1], parts[|parts| - 1];
      at := PartsExactly(init);
      assert parts == init + [last];
      assert PartsParse(parts) <==> PartsParse(init) && (TrimSpace(last) != "" ==> ParsePortSpec(TrimSpace(last)).Ok?);
      if ParseParts(parts).Ok? {
        var kept := ParseParts(init).value;
        SiftMore(init, kept, at, good, image, last);
        at := at + if good(last) then [|init|] else [];
        assert ParseParts(parts).value == kept + (if good(last) then [image(last)] else []);
      }
    }
  }

  /** What a line means, for every text: it is good exactly when all of its parts that are not blank
      are, and there is one; and then it lists what they parse to, in their order, and nothing else. */
  lemma LineExactly(line: string) returns (at: seq<nat>)
    ensures LineMeans(line).Ok? <==>
            PartsParse(Split(line, ',')) && exists i :: 0 <= i < |Split(line, ',')| && TrimSpace(Split(line, ',')[i]) != ""
    ensures LineMeans(line).Ok? ==>
              Sifted(Split(line, ','), LineMeans(line).value, at,
                     (p: string) => TrimSpace(p) != "", (p: string) => Entry(p))
  {
    hide ParsePortSpec, TrimSpace, Split, ParseParts;
    var parts := Split(line, ',');
    at := PartsExactly(parts);
    if ParseParts(parts).Ok? {
      SomeSifted(parts, ParseParts(parts).value, at, (p: string) => TrimSpace(p) != "", (p: string) => Entry(p));
    }
  }

  lemma SomeSifted<T, U>(whole: seq<T>, kept: seq<U>, at: seq<nat>, good: T -> bool, image: T -> U)
    requires Sifted(whole, kept, at, good, image)
    ensures kept != [] <==> exists i :: 0 <= i < |whole| && good(whole[i])
  {
    if kept != [] {
      assert good(whole[at[0]]);
    }
  }

  lemma {:induction false} BlankPartSkipped(a: seq<string>, blank: string, b: seq<string>)
    requires TrimSpace(blank) == ""
    ensures ParseParts(a + [blank] + b) == ParseParts(a + b)
    decreases |b|
  {
    hide ParsePortSpec, TrimSpace;
    if b == [] {
      assert (a + [blank] + b)[..|a|] == a && a + b == a;
    } else {
      var n := |b| - 1;
      assert (a + [blank] + b)[..|a| + 1 + n] == a + [blank] + b[..n];
      assert (a + b)[..|a| + n] == a + b[..n];
      BlankPartSkipped(a, blank, b[..n]);
    }
  }

  /** A blank part changes no line. */
  lemma BlankPartChangesNothing(left: string, pad: string, right: string)
    requires AllSpace(pad)
    ensures LineMeans(left + "," + (pad + "," + right)) == LineMeans(left + "," + right)
  {
    hide ParsePortSpec, TrimSpace, Split, ParseParts, AllSpace;
    SpaceIsNoSeparator(pad);
    SplitConcat(left, ',', pad + "," + right);
    SplitConcat(left, ',', right);
    SplitFirst(pad, ',', right);
    assert TrimSpace(pad) == "" by { TrimSkipsPadding(pad, ""); assert pad + "" == pad; }
    BlankPartSkipped(Split(left, ','), pad, Split(right, ','));
    assert Split(left, ',') + ([pad] + Split(right, ',')) == Split(left, ',') + [pad] + Split(right, ',');
  }

  method ParsePortsLine(line: string) returns (res: Result<seq<PortMap>>)
    ensures res == LineMeans(line)
  {
    hide ParsePortSpec, TrimSpace, Split;
    var out: seq<PortMap> := [];
    var parts := Split(line, ',');
    var i := 0;
    assert parts[..0] == [];
    while i < |parts|
      invariant 0 <= i <= |parts|
      invariant ParseParts(parts[..i]) == Ok(out)
    {
      var part := TrimSpace(parts[i]);
      assert parts[..i + 1][..i] == parts[..i];
      i := i + 1;
      if part != "" {
        var pm := ParsePortSpec(part);
        if pm.Bad? {
          BadPartSpoils(parts, i);
          return Bad;
        }
        out := out + [pm.value];
      }
    }
    assert parts[..i] == parts;
    if out == [] {
      return Bad;
    }
    return Ok(out);
  }

  function Formats(pms: seq<PortMap>): (specs: seq<string>)
    ensures |specs| == |pms|
    ensures forall i :: 0 <= i < |pms| ==> specs[i] == FormatPortSpec(pms[i])
  {
    seq(|pms|, i requires 0 <= i < |pms| => FormatPortSpec(pms[i]))
  }

  /** What parsing a line can put in the list: well formed, and no comma in the target. */
  ghost predicate FromALine(pms: seq<PortMap>) {
    forall i :: 0 <= i < |pms| ==> WellFormed(pms[i]) && ',' !in pms[i].target
  }

  lemma {:induction false} PartsWellFormed(parts: seq<string>)
    requires forall i :: 0 <= i < |parts| ==> ',' !in parts[i]
    requires ParseParts(parts).Ok?
    ensures FromALine(ParseParts(parts).value)
  {
    hide ParsePortSpec, TrimSpace, WellFormed;
    if parts != [] {
      PartsWellFormed(parts[..|parts| - 1]);
      var part := TrimSpace(parts[|parts| - 1]);
      TrimAddsNothing(parts[|parts| - 1], ',');
      if part != "" {
        ParsedIsWellFormed(part);
      }
    }
  }

  lemma LineIsWellFormed(line: string)
    requires LineMeans(line).Ok?
    ensures LineMeans(line).value != [] && FromALine(LineMeans(line).value)
  {
    hide ParseParts, Split;
    SplitParts(line, ',');
    PartsWellFormed(Split(line, ','));
  }

  lemma PrintedForm(pm: PortMap)
    requires WellFormed(pm) && ',' !in pm.target
    ensures FormatPortSpec(pm) != "" && Trimmed(FormatPortSpec(pm)) && ',' !in FormatPortSpec(pm)
  {
    hide ValidPort, BackendsNamed;
    var port := pm.listen[|ANY|..];
    PortCharacters(port);
    var printed := FormatPortSpec(pm);
    assert printed[0] == port[0];
    if LOOPBACK <= pm.target {
      assert pm.target[|LOOPBACK|..] != "" ==>
          pm.target[|LOOPBACK|..][|pm.target| - |LOOPBACK| - 1] == pm.target[|pm.target| - 1];
      assert forall c :: c in pm.target[|LOOPBACK|..] ==> c in pm.target;
    }
  }

  ghost predicate AllRoundTrip(pms: seq<PortMap>) {
    forall i :: 0 <= i < |pms| ==> !PrintsLoopback(pms[i])
  }

  /** Parts that print the entries, with padding, parse to the entries exactly when each of them does. */
  lemma {:induction false} PrintedPartsParse(parts: seq<string>, pms: seq<PortMap>)
    requires |parts| == |pms| && FromALine(pms)
    requires forall i :: 0 <= i < |parts| ==> TrimSpace(parts[i]) == FormatPortSpec(pms[i])
    ensures ParseParts(parts) == Ok(pms) <==> AllRoundTrip(pms)
    ensures ParseParts(parts).Ok? ==> |ParseParts(parts).value| == |pms|
  {
    hide ParsePortSpec, TrimSpace, WellFormed, FormatPortSpec, PrintsLoopback;
    if pms != [] {
      var n := |pms| - 1;
      PrintedPartsParse(parts[..n], pms[..n]);
      PrintedForm(pms[n]);
      RoundTripExactly(pms[n]);
      var rest, last := ParseParts(parts[..n]), ParsePortSpec(FormatPortSpec(pms[n]));
      assert pms == pms[..n] + [pms[n]];
      if rest.Ok? && last.Ok? {
        assert ParseParts(parts).value == rest.value + [last.value];
        assert (rest.value + [last.value] == pms) <==> (rest.value == pms[..n] && last.value == pms[n]) by {
          assert (rest.value + [last.value])[..n] == rest.value;
        }
      }
    }
  }

  /** The joined form of a list of ports parses back to that list exactly when each entry does,
      whatever white space follows the commas. */
  lemma LineRoundTripExactly(pms: seq<PortMap>, pad: string)
    requires pms != [] && FromALine(pms) && AllSpace(pad)
    ensures LineMeans(Join(Formats(pms), "," + pad)) == Ok(pms) <==> AllRoundTrip(pms)
  {
    hide WellFormed, FormatPortSpec, PrintsLoopback, ParseParts, Split, Join, Trimmed, TrimSpace, Padded;
    var specs := Formats(pms);
    forall i | 0 <= i < |specs|
      ensures Trimmed(specs[i]) && ',' !in specs[i]
    {
      PrintedForm(pms[i]);
    }
    TrimPadded("", pad, specs);
    SplitJoin("", specs, ',', pad);
    var joined := Join(specs, "," + pad);
    assert "" + joined == joined;
    PrintedPartsParse(Split(joined, ','), pms);
  }

  lemma {:induction false} TrimPadded(front: string, pad: string, specs: seq<string>)
    requires AllSpace(front) && AllSpace(pad) && forall i :: 0 <= i < |specs| ==> Trimmed(specs[i])
    ensures forall i :: 0 <= i < |specs| ==> TrimSpace(Padded(front, pad, specs)[i]) == specs[i]
    ensures ',' !in front && ',' !in pad
    decreases |specs|
  {
    hide Trimmed, TrimSpace;
    assert !IsSpace(',');
    if specs != [] {
      TrimSkipsPadding(front, specs[0]);
      TrimPadded(pad, pad, specs[1..]);
    }
  }
}
