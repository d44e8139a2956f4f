/** The few functions of Go's `strings` and `strconv` packages the tunnel's text formats rest on. */
module Text {
  import opened Options

  // ---- white space ----

  /** unicode.IsSpace. */
  predicate IsSpace(c: char) {
    || '\t' <= c <= '\r' || c == ' ' || c == '\U{85}' || c == '\U{A0}' || c == '\U{1680}'
    || '\U{2000}' <= c <= '\U{200A}' || c == '\U{2028}' || c == '\U{2029}' || c == '\U{202F}'
    || c == '\U{205F}' || c == '\U{3000}'
  }

  ghost predicate AllSpace(s: string) { forall i :: 0 <= i < |s| ==> IsSpace(s[i]) }

  /** No white space at either end. */
  predicate Trimmed(s: string) { s != "" ==> !IsSpace(s[0]) && !IsSpace(s[|s| - 1]) }

  function TrimLeft(s: string): (r: string)
    ensures r == "" || !IsSpace(r[0])
    ensures |r| <= |s| && r == s[|s| - |r|..] && AllSpace(s[..|s| - |r|])
  {
    if s != "" && IsSpace(s[0]) then TrimLeft(s[1..]) else s
  }

  function TrimRight(s: string): (r: string)
    ensures r == "" || !IsSpace(r[|r| - 1])
    ensures r <= s && AllSpace(s[|r|..])
  {
    if s != "" && IsSpace(s[|s| - 1]) then
      var r := TrimRight(s[..|s| - 1]);
      assert forall i :: |r| <= i < |s| - 1 ==> s[i] == s[..|s| - 1][|r|..][i - |r|];
      r
    else s
  }

  /** strings.TrimSpace. */
  function TrimSpace(s: string): (r: string)
    ensures Trimmed(r)
    ensures Trimmed(s) ==> r == s
  {
    TrimRight(TrimLeft(s))
  }

  lemma TrimAddsNothing(s: string, c: char)
    requires c !in s
    ensures c !in TrimSpace(s)
  {
  }

  lemma {:induction false} TrimLeftSkips(pad: string, s: string)
    requires AllSpace(pad) && (s == "" || !IsSpace(s[0]))
    ensures TrimLeft(pad + s) == s
    decreases |pad|
  {
    if pad == "" {
      assert pad + s == s;
    } else {
      assert (pad + s)[1..] == pad[1..] + s;
      TrimLeftSkips(pad[1..], s);
    }
  }

  /** White space in front of a trimmed text does not matter. */
  lemma TrimSkipsPadding(pad: string, s: string)
    requires AllSpace(pad) && Trimmed(s)
    ensures TrimSpace(pad + s) == s
  {
    TrimLeftSkips(pad, s);
  }

  lemma {:induction false} TrimRightSkips(s: string, pad: string)
    requires AllSpace(pad) && (s == "" || !IsSpace(s[|s| - 1]))
    ensures TrimRight(s + pad) == s
    decreases |pad|
  {
    if pad == "" {
      assert s + pad == s;
    } else {
      assert (s + pad)[..|s + pad| - 1] == s + pad[..|pad| - 1];
      TrimRightSkips(s, pad[..|pad| - 1]);
    }
  }

  /** Nor does white space on both sides; white space alone trims to nothing. */
  lemma TrimSkipsBoth(before: string, s: string, after: string)
    requires AllSpace(before) && AllSpace(after) && Trimmed(s)
    ensures TrimSpace(before + s + after) == s
  {
    if s == "" {
      assert before + s + after == (before + after) + "";
      TrimLeftSkips(before + after, "");
    } else {
      assert before + s + after == before + (s + after);
      TrimLeftSkips(before, s + after);
      TrimRightSkips(s, after);
    }
  }

  // ---- searching ----

  /** strings.Index for one character: the first place it stands, or -1. */
  function IndexOf(s: string, c: char): (i: int)
    ensures i == -1 <==> c !in s
    ensures i >= 0 ==> i < |s| && s[i] == c && c !in s[..i]
    ensures -1 <= i
  {
    if s == "" then -1
    else if s[0] == c then 0
    else
      var i := IndexOf(s[1..], c);
      if i < 0 then -1
      else
        assert s[..i + 1] == [s[0]] + s[1..][..i];
        i + 1
  }

  lemma {:induction false} IndexOfFirst(a: string, c: char, b: string)
    requires c !in a
    ensures IndexOf(a + [c] + b, c) == |a|
  {
    if a != "" {
      assert (a + [c] + b)[1..] == a[1..] + [c] + b;
      IndexOfFirst(a[1..], c, b);
    }
  }

  // ---- splitting and joining ----

  /** strings.Split for a one-character separator. */
  function Split(s: string, sep: char): (parts: seq<string>)
    ensures |parts| >= 1
    decreases |s|
  {
    var i := IndexOf(s, sep);
    if i < 0 then [s] else [s[..i]] + Split(s[i + 1..], sep)
  }

  /** strings.Join. */
  function Join(parts: seq<string>, sep: string): string {
    if parts == [] then "" else if |parts| == 1 then parts[0] else parts[0] + sep + Join(parts[1..], sep)
  }

  /** The parts are free of the separator and make up the text: Split is the way to cut a text that
      Join undoes. */
  lemma {:induction false} SplitParts(s: string, sep: char)
    ensures forall i :: 0 <= i < |Split(s, sep)| ==> sep !in Split(s, sep)[i]
    ensures Join(Split(s, sep), [sep]) == s
    decreases |s|
  {
    hide IndexOf;
    var i := IndexOf(s, sep);
    if i >= 0 {
      var rest := Split(s[i + 1..], sep);
      SplitParts(s[i + 1..], sep);
      assert Split(s, sep) == [s[..i]] + rest;
      assert s == s[..i] + [sep] + s[i + 1..];
    }
  }

  lemma SplitOne(s: string, sep: char)
    requires sep !in s
    ensures Split(s, sep) == [s]
  {
  }

  lemma SplitFirst(head: string, sep: char, tail: string)
    requires sep !in head
    ensures Split(head + [sep] + tail, sep) == [head] + Split(tail, sep)
  {
    var s := head + [sep] + tail;
    IndexOfFirst(head, sep, tail);
    assert s[..|head|] == head && s[|head| + 1..] == tail;
  }

  /** Splitting on both sides of a separator. */
  lemma {:induction false} SplitConcat(x: string, sep: char, y: string)
    ensures Split(x + [sep] + y, sep) == Split(x, sep) + Split(y, sep)
    decreases |x|
  {
    hide IndexOf;
    var i := IndexOf(x, sep);
    if i < 0 {
      SplitFirst(x, sep, y);
    } else {
      var head, tail := x[..i], x[i + 1..];
      assert x + [sep] + y == head + [sep] + (tail + [sep] + y);
      SplitFirst(head, sep, tail + [sep] + y);
      SplitConcat(tail, sep, y);
    }
  }

  /** `parts` with `front` before the first and `pad` before each of the others. */
  function Padded(front: string, pad: string, parts: seq<string>): (padded: seq<string>)
    ensures |padded| == |parts|
    ensures parts != [] ==> padded[0] == front + parts[0]
    ensures forall i :: 1 <= i < |parts| ==> padded[i] == pad + parts[i]
    decreases |parts|
  {
    if parts == [] then [] else [front + parts[0]] + Padded(pad, pad, parts[1..])
  }

  /** Joining pieces that are free of the separator and splitting again gives them back; what the
      joint holds behind the separator is left in front of each piece but the first. */
  lemma {:induction false} SplitJoin(front: string, parts: seq<string>, sep: char, pad: string)
    requires parts != [] && sep !in pad && sep !in front
    requires forall i :: 0 <= i < |parts| ==> sep !in parts[i]
    ensures Split(front + Join(parts, [sep] + pad), sep) == Padded(front, pad, parts)
    decreases |parts|
  {
    hide Split, IndexOf;
    var head := front + parts[0];
    if |parts| == 1 {
      assert front + Join(parts, [sep] + pad) == head;
      SplitOne(head, sep);
    } else {
      var joined := Join(parts[1..], [sep] + pad);
      var tail := pad + joined;
      assert front + (parts[0] + ([sep] + pad) + joined) == head + [sep] + tail;
      SplitFirst(head, sep, tail);
      SplitJoin(pad, parts[1..], sep, pad);
    }
  }

  // ---- numbers ----

  predicate Digits(s: string) { s != "" && forall i :: 0 <= i < |s| ==> '0' <= s[i] <= '9' }

  function Decimal(s: string): nat
    requires s == "" || Digits(s)
  {
    if s == "" then 0
    else
      assert '0' <= s[|s| - 1];
      10 * Decimal(s[..|s| - 1]) + ((s[|s| - 1] as int) - ('0' as int))
  }

  function Digit(d: nat): char
    requires d < 10
  {
    '0' + (d as char)
  }

  /** The usual decimal notation of a number, without leading zeros. */
  function Numeral(n: nat): (s: string)
    ensures Digits(s)
  {
    if n < 10 then [Digit(n)] else Numeral(n / 10) + [Digit(n % 10)]
  }

  function Zeros(k: nat): (s: string)
    ensures |s| == k && forall i :: 0 <= i < k ==> s[i] == '0'
  {
    seq(k, i => '0')
  }

  lemma DecimalSnoc(s: string, d: nat)
    requires (s == "" || Digits(s)) && d < 10
    ensures Digits(s + [Digit(d)]) && Decimal(s + [Digit(d)]) == 10 * Decimal(s) + d
  {
    assert (s + [Digit(d)])[..|s|] == s;
  }

  lemma {:induction false} DecimalOfNumeral(k: nat, n: nat)
    ensures Digits(Zeros(k) + Numeral(n)) && Decimal(Zeros(k) + Numeral(n)) == n
    decreases n, k
  {
    if n < 10 {
      assert Zeros(k) + Numeral(n) == Zeros(k) + [Digit(n)];
      DecimalOfZeros(k);
      DecimalSnoc(Zeros(k), n);
    } else {
      DecimalOfNumeral(k, n / 10);
      assert Zeros(k) + Numeral(n) == (Zeros(k) + Numeral(n / 10)) + [Digit(n % 10)];
      DecimalSnoc(Zeros(k) + Numeral(n / 10), n % 10);
    }
  }

  lemma {:induction false} DecimalOfZeros(k: nat)
    ensures Decimal(Zeros(k)) == 0
  {
    if k > 0 {
      assert Zeros(k)[..k - 1] == Zeros(k - 1);
      DecimalOfZeros(k - 1);
    }
  }

  lemma ZeroLast(k: nat)
    ensures Zeros(k) + Numeral(0) == Zeros(k + 1)
  {
    assert Numeral(0) == "0";
  }

  lemma NumeralSnoc(v: nat, d: nat)
    requires v > 0 && d < 10
    ensures Numeral(10 * v + d) == Numeral(v) + [Digit(d)]
  {
  }

  /** Every string of digits is the notation of its value behind some zeros. */
  lemma {:induction false} DigitsAreNumerals(s: string) returns (k: nat)
    requires Digits(s)
    ensures s == Zeros(k) + Numeral(Decimal(s))
    decreases |s|
  {
    var init, d := s[..|s| - 1], (s[|s| - 1] as int) - ('0' as int);
    assert s == init + [Digit(d)];
    if init == "" {
      k := 0;
      assert Zeros(0) + Numeral(d) == s;
    } else {
      k := DigitsAreNumerals(init);
      var v := Decimal(init);
      if v == 0 {
        ZeroLast(k);
        k := k + 1;
        assert s == Zeros(k) + Numeral(d);
      } else {
        NumeralSnoc(v, d);
        assert s == Zeros(k) + Numeral(10 * v + d);
      }
    }
  }

  const MAX_INT64 := 0x7FFF_FFFF_FFFF_FFFF

  /** strconv.Atoi on a 64-bit machine: an optional sign and decimal digits, within range. */
  function Atoi(s: string): Option<int> {
    var negative := s != "" && s[0] == '-';
    var digits := if s != "" && (s[0] == '+' || s[0] == '-') then s[1..] else s;
    if !Digits(digits) then None
    else
      var n: int := Decimal(digits);
      if negative then if n <= MAX_INT64 + 1 then Some(-n) else None
      else if n <= MAX_INT64 then Some(n) else None
  }
}
