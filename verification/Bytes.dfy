/** Bytes, byte strings and the 16-bit big-endian length every frame of the tunnel starts with. */
module Bytes {
  type byte = x: int | 0 <= x < 256
  type Bytes = seq<byte>

  const MAX_UINT16 := 65535

  /** The two bytes `binary.BigEndian.PutUint16` stores for `uint16(n)`; the conversion keeps the
      low 16 bits, so a longer length wraps around. */
  function PutUint16(n: nat): (header: Bytes)
    ensures |header| == 2
  {
    var v := n % 0x1_0000;
    [v / 256, v % 256]
  }

  function Uint16(header: Bytes): (n: nat)
    requires |header| == 2
    ensures n <= MAX_UINT16
  {
    var high: int, low: int := header[0], header[1];
    high * 256 + low
  }

  /** The high byte comes first, in both directions. */
  lemma BigEndian(high: byte, low: byte)
    ensures PutUint16((high as nat) * 256 + (low as nat)) == [high, low]
    ensures Uint16([high, low]) == (high as nat) * 256 + (low as nat)
  {
  }

  /** The header and the number determine each other exactly when the number fits in 16 bits. */
  lemma Uint16RoundTrip(n: nat)
    ensures Uint16(PutUint16(n)) == n <==> n <= MAX_UINT16
  {
  }

  function Concat(parts: seq<Bytes>): (all: Bytes)
  {
    if parts == [] then [] else parts[0] + Concat(parts[1..])
  }

  lemma {:induction false} ConcatAppend(a: seq<Bytes>, b: seq<Bytes>)
    ensures Concat(a + b) == Concat(a) + Concat(b)
  {
    if a == [] {
      assert a + b == b;
    } else {
      assert (a + b)[1..] == a[1..] + b;
      ConcatAppend(a[1..], b);
    }
  }

  lemma ConcatOne(p: Bytes)
    ensures Concat([p]) == p
  {
    var parts: seq<Bytes> := [p];
    assert parts[1..] == [];
  }
}
