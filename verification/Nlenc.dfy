/**
 Integers and strings as netlink-client/nlenc writes them, and the alignment
 arithmetic of netlink-client/align.go.  The byte order of the host is a
 parameter wherever the original uses the machine's own.
 */
module Nlenc {
  import opened Bits
  import opened Bytes

  datatype ByteOrder = Little | Big

  type uint8 = x: int | 0 <= x < 0x100
  type uint16 = x: int | 0 <= x < 0x1_0000
  type uint32 = x: int | 0 <= x < 0x1_0000_0000
  type uint64 = x: int | 0 <= x < 0x1_0000_0000_0000_0000

  function Pow256(n: nat): (p: nat)
    ensures p >= 1
  {
    if n == 0 then 1 else 256 * Pow256(n - 1)
  }

  lemma Pow256Values()
    ensures Pow256(1) == 0x100 && Pow256(2) == 0x1_0000 && Pow256(4) == 0x1_0000_0000
    ensures Pow256(8) == 0x1_0000_0000_0000_0000
  {
    assert Pow256(3) == 256 * Pow256(2);
    assert Pow256(5) == 256 * Pow256(4);
    assert Pow256(7) == 256 * (256 * Pow256(5));
    assert Pow256(8) == 256 * Pow256(7);
  }

  /** The n low bytes of v, lowest first. */
  function LowBytes(v: int, n: nat): (b: seq<byte>)
    ensures |b| == n
    decreases n
  {
    if n == 0 then [] else [v % 256] + LowBytes(v / 256, n - 1)
  }

  function FromLow(b: seq<byte>): (v: int)
    ensures v >= 0
  {
    if b == [] then 0 else b[0] + 256 * FromLow(b[1..])
  }

  function Reversed(b: seq<byte>): (r: seq<byte>)
    ensures |r| == |b| && forall i | 0 <= i < |b| :: r[i] == b[|b| - 1 - i]
  {
    if b == [] then [] else Reversed(b[1..]) + [b[0]]
  }

  /** PutUint8, PutUint16, PutUint32 and PutUint64 for n = 1, 2, 4 and 8. */
  function Put(o: ByteOrder, v: int, n: nat): (b: seq<byte>)
    ensures |b| == n
  {
    if o == Little then LowBytes(v, n) else Reversed(LowBytes(v, n))
  }

  /** The integer that b spells. */
  function Get(o: ByteOrder, b: seq<byte>): (v: int)
    ensures v >= 0
  {
    if o == Little then FromLow(b) else FromLow(Reversed(b))
  }

  lemma ReversedTwice(b: seq<byte>)
    ensures Reversed(Reversed(b)) == b
  {
  }

  lemma {:induction false} FromLowOfBytes(v: int, n: nat)
    requires 0 <= v < Pow256(n)
    ensures FromLow(LowBytes(v, n)) == v
    decreases n
  {
    if n > 0 {
      assert v / 256 < Pow256(n - 1);
      FromLowOfBytes(v / 256, n - 1);
    }
  }

  lemma {:induction false} LowBytesOfValue(b: seq<byte>)
    ensures FromLow(b) < Pow256(|b|) && LowBytes(FromLow(b), |b|) == b
  {
    if b != [] {
      LowBytesOfValue(b[1..]);
      var v := FromLow(b);
      assert v % 256 == b[0] && v / 256 == FromLow(b[1..]);
    }
  }

  /** Reading back what was put gives the integer, in either byte order. */
  lemma GetOfPut(o: ByteOrder, v: int, n: nat)
    requires 0 <= v < Pow256(n)
    ensures Get(o, Put(o, v, n)) == v
  {
    FromLowOfBytes(v, n);
    ReversedTwice(LowBytes(v, n));
  }

  /** Putting back what was read gives the bytes. */
  lemma PutOfGet(o: ByteOrder, b: seq<byte>)
    ensures Get(o, b) < Pow256(|b|) && Put(o, Get(o, b), |b|) == b
  {
    LowBytesOfValue(b);
    LowBytesOfValue(Reversed(b));
    ReversedTwice(b);
  }

  lemma QuotientTwice(x: int, d: nat)
    requires d > 0
    ensures x / 256 / d == x / (256 * d)
  {
    var y := x / 256;
    var q, r := y / d, 256 * (y % d) + x % 256;
    assert y == d * q + y % d;
    assert x == 256 * (d * q) + r == (256 * d) * q + r;
    DivModUnique(x, 256 * d, q, r);
  }

  lemma {:induction false} LowByteAt(v: int, n: nat, i: nat)
    requires i < n
    ensures LowBytes(v, n)[i] == v / Pow256(i) % 256
    decreases n
  {
    if i > 0 {
      LowByteAt(v / 256, n - 1, i - 1);
      QuotientTwice(v, Pow256(i - 1));
    }
  }

  /** On the wire the byte of weight 256^i is i places from the front in little-endian order and i from the end in big-endian. */
  lemma PutAt(v: int, n: nat, i: nat)
    requires i < n
    ensures Put(Little, v, n)[i] == v / Pow256(i) % 256 == Put(Big, v, n)[n - 1 - i]
  {
    LowByteAt(v, n, i);
  }

  // ---------------------------------------------------------------- strings

  /** A Go string is its bytes; Bytes adds the terminating NUL. */
  function StringBytes(s: seq<byte>): seq<byte> { s + [0] }

  /** String drops every trailing NUL. */
  function TrimNul(b: seq<byte>): (s: seq<byte>)
    ensures s <= b && (s == [] || s[|s| - 1] != 0)
    ensures forall i | |s| <= i < |b| :: b[i] == 0
  {
    if b != [] && b[|b| - 1] == 0 then TrimNul(b[..|b| - 1]) else b
  }

  /** A string survives the round trip if and only if it does not end in NUL. */
  lemma StringRoundTripIff(s: seq<byte>)
    ensures TrimNul(StringBytes(s)) == s <==> (s == [] || s[|s| - 1] != 0)
  {
    assert StringBytes(s)[..|s|] == s;
    assert TrimNul(StringBytes(s)) == TrimNul(s);
  }

  // -------------------------------------------------------------- alignment

  /** nlmsgAlign and nlaAlign: the least multiple of 4 that is not smaller. */
  function Align(len: int): (r: int)
    ensures r % 4 == 0 && len <= r < len + 4
  {
    AlignArithmetic(len + 3);
    And(len + 3, -4)
  }

  lemma AlignArithmetic(x: int)
    ensures And(x, -4) == x - x % 4 && (x - x % 4) % 4 == 0
  {
    hide And, Pow2;
    PowValues();
    HighMask(x, 2, 4);
  }

  const NLA_HEADER_LEN := 4
  const NLMSG_HEADER_LEN := 16
}
