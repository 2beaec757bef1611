/**
 checkSum of util/net/ping.go against the Internet checksum of section 1 of
 RFC 1071, and the echo message of RFC 792 that Ping builds with it.
 */
module Checksum {
  import opened Bits
  import opened Bytes

  /** A 16-bit word in network order. */
  function Word(hi: int, lo: int): int { hi * 256 + lo }

  /** The 16-bit words of a message in network order, an odd last byte padded with zero, added up. */
  function WordSum(m: seq<byte>): (s: int)
    ensures 0 <= s
  {
    if |m| == 0 then 0
    else if |m| == 1 then Word(m[0], 0)
    else Word(m[0], m[1]) + WordSum(m[2..])
  }

  lemma {:induction false} WordSumBound(m: seq<byte>)
    ensures WordSum(m) <= 65535 * ((|m| + 1) / 2)
    decreases |m|
  {
    if |m| > 1 {
      WordSumBound(m[2..]);
    }
  }

  /** A byte at an even place weighs 256, one at an odd place 1. */
  lemma {:induction false} ByteWeights(m: seq<byte>, i: nat, x: byte)
    requires i < |m|
    ensures WordSum(m[i := x]) - WordSum(m) == (x - m[i]) * if i % 2 == 0 then 256 else 1
    decreases |m|
  {
    if i >= 2 {
      assert m[i := x][2..] == m[2..][i - 2 := x];
      ByteWeights(m[2..], i - 2, x);
    } else if |m| > 1 {
      assert m[i := x][2..] == m[2..];
    }
  }

  /** sum>>16 + sum&0xffff of a non-negative sum. */
  function Fold(s: int): int { s / 65536 + s % 65536 }

  /** What the two folds leave in the low 16 bits. */
  function TwoFolds(s: int): (r: int)
    ensures 0 <= r < 65536
  {
    (Fold(s) + Fold(s) / 65536) % 65536
  }

  // ------------------------------------------------- RFC 1071 section 1

  /** One's complement addition: the carry out of the top comes back in at the bottom. */
  function OnesAdd(a: int, b: int): int { if a + b > 65535 then a + b - 65535 else a + b }

  /** The one's complement sum of the words added in order to acc. */
  function OnesSum(acc: int, m: seq<byte>): int
    decreases |m|
  {
    if |m| == 0 then acc
    else if |m| == 1 then OnesAdd(acc, Word(m[0], 0))
    else OnesSum(OnesAdd(acc, Word(m[0], m[1])), m[2..])
  }

  function InternetChecksum(m: seq<byte>): int { 65535 - OnesSum(0, m) }

  /** The one's complement value of a sum: 0 for 0, else its residue modulo 65535 in 1..65535. */
  function Canon(s: int): int { if s == 0 then 0 else 1 + (s - 1) % 65535 }

  lemma CanonAdd(s: int, w: int)
    requires s >= 0 && 0 <= w <= 65535
    ensures OnesAdd(Canon(s), w) == Canon(s + w)
  {
  }

  lemma {:induction false} OnesSumIsCanon(s: int, m: seq<byte>)
    requires s >= 0
    ensures OnesSum(Canon(s), m) == Canon(s + WordSum(m))
    decreases |m|
  {
    if |m| == 1 {
      CanonAdd(s, Word(m[0], 0));
    } else if |m| > 1 {
      CanonAdd(s, Word(m[0], m[1]));
      OnesSumIsCanon(s + Word(m[0], m[1]), m[2..]);
    }
  }

  // ------------------------------------------------- when two folds are enough

  /** The second fold leaves no carry. */
  predicate NoCarryLeft(s: int) { Fold(Fold(s)) < 65536 }

  lemma FoldKeepsCanon(s: int)
    requires s >= 0
    ensures Canon(Fold(s)) == Canon(s)
  {
    assert s == 65535 * (s / 65536) + Fold(s);
  }

  /** Two folds give the one's complement sum if and only if no carry is left; the sum is that of a Go int. */
  lemma TwoFoldsExactIff(s: int)
    requires 0 <= s < 0x8000_0000_0000_0000
    ensures TwoFolds(s) == Canon(s) <==> NoCarryLeft(s)
  {
    FoldKeepsCanon(s);
    FoldKeepsCanon(Fold(s));
    TwoFoldsIsFoldFold(s);
    var g := Fold(Fold(s));
    assert 0 <= g < 65535 * 65536;
    hide Fold, TwoFolds, Canon;
    if g < 65536 {
      SmallIsCanon(g);
    } else {
      CarryDiffers(g);
    }
  }

  lemma SmallIsCanon(g: int)
    requires 0 <= g < 65536
    ensures g % 65536 == g == Canon(g)
  {
  }

  /** A carry that is left shows. */
  lemma CarryDiffers(g: int)
    requires 65536 <= g < 65535 * 65536
    ensures g % 65536 != Canon(g)
  {
    var q, r := g / 65536, g % 65536;
    assert g - 1 == q * 65535 + (q + r - 1);
    if q + r - 1 < 65535 {
      DivModUnique(g - 1, 65535, q, q + r - 1);
    } else {
      DivModUnique(g - 1, 65535, q + 1, q + r - 1 - 65535);
    }
  }

  // ------------------------------------------------------------- checkSum

  lemma Complement(g: int)
    ensures (-g - 1) % 65536 == 65535 - g % 65536
  {
    DivModUnique(-g - 1, 65536, -(g / 65536) - 1, 65535 - g % 65536);
  }

  /** The last three lines of checkSum. */
  lemma Finish(sum: int)
    requires sum >= 0
    ensures var f := sum / 65536 + And(sum, 0xffff); (-(f + f / 65536) - 1) % 65536 == 65535 - TwoFolds(sum)
  {
    hide And, Pow2;
    PowValues();
    LowMask(sum, 16, 65536);
    var f := sum / 65536 + And(sum, 0xffff);
    Complement(f + f / 65536);
  }

  method CheckSum(msg: seq<byte>) returns (answer: int)
    ensures answer == 65535 - TwoFolds(WordSum(msg))
    ensures WordSum(msg) < 0x8000_0000_0000_0000 ==>
              (answer == InternetChecksum(msg) <==> NoCarryLeft(WordSum(msg)))
  {
    var sum := 0;
    var length := |msg|;
    var i := 0;
    ghost var j := 0;
    assert msg[0..] == msg;
    while i < length - 1
      invariant 0 <= i <= length && i == 2 * j
      invariant sum >= 0 && sum + WordSum(msg[i..]) == WordSum(msg)
    {
      assert msg[i..][2..] == msg[i + 2..];
      sum := sum + Word(msg[i], msg[i + 1]);
      i := i + 2;
      j := j + 1;
    }
    if length % 2 == 1 {
      sum := sum + Word(msg[length - 1], 0);
    }
    assert sum == WordSum(msg);
    hide *;
    TwoFoldsExactIffOfMessage(msg);
    Finish(sum);
    sum := sum / 65536 + And(sum, 0xffff);
    sum := sum + sum / 65536;
    answer := (-sum - 1) % 65536;
  }

  lemma TwoFoldsExactIffOfMessage(msg: seq<byte>)
    ensures WordSum(msg) < 0x8000_0000_0000_0000 ==>
              (65535 - TwoFolds(WordSum(msg)) == InternetChecksum(msg) <==> NoCarryLeft(WordSum(msg)))
  {
    OnesSumIsCanon(0, msg);
    if WordSum(msg) < 0x8000_0000_0000_0000 {
      TwoFoldsExactIff(WordSum(msg));
    }
  }

  // ---------------------------------------------------------- exact lengths

  lemma {:induction false} WordSumConcat(a: seq<byte>, words: nat, b: seq<byte>)
    requires |a| == 2 * words
    ensures WordSum(a + b) == WordSum(a) + WordSum(b)
    decreases |a|
  {
    if a == [] {
      assert a + b == b;
    } else {
      assert (a + b)[2..] == a[2..] + b;
      WordSumConcat(a[2..], words - 1, b);
    }
  }

  /** Two more of the same byte are one more word. */
  lemma WordSumTwoMore(x: byte, k: nat)
    ensures WordSum(Repeat(x, k + 2)) == Word(x, x) + WordSum(Repeat(x, k))
  {
    var m := Repeat(x, k + 2);
    hide Repeat;
    assert m[2..] == Repeat(x, k);
  }

  lemma {:induction false} WordSumOnes(n: nat)
    ensures WordSum(Repeat(255, 2 * n)) == 65535 * n
  {
    if n > 0 {
      WordSumOnes(n - 1);
      WordSumTwoMore(255, 2 * (n - 1));
      hide Repeat, WordSum;
    }
  }

  lemma {:induction false} WordSumZeros(k: nat)
    ensures WordSum(Repeat(0, k)) == 0
  {
    if k == 1 {
      assert WordSum(Repeat(0, 1)) == Word(0, 0);
    } else if k > 1 {
      WordSumZeros(k - 2);
      WordSumTwoMore(0, k - 2);
      hide Repeat, WordSum;
    }
  }

  /** A prefix, n words of 0xffff, then 256 and zeros. */
  function Overlong(prefix: seq<byte>, n: nat, length: nat): (m: seq<byte>)
    requires length >= |prefix| + 2 * n + 1
    ensures |m| == length && prefix <= m
  {
    prefix + (Repeat(255, 2 * n) + ([1] + Repeat(0, length - |prefix| - 2 * n - 1)))
  }

  lemma OneThenZeros(k: nat)
    ensures WordSum([1] + Repeat(0, k)) == 256
  {
    if k > 0 {
      assert ([1] + Repeat(0, k))[2..] == Repeat(0, k - 1);
      WordSumZeros(k - 1);
    }
  }

  lemma OverlongSum(prefix: seq<byte>, words: nat, n: nat, length: nat)
    requires |prefix| == 2 * words && length >= |prefix| + 2 * n + 1
    ensures WordSum(Overlong(prefix, n, length)) == WordSum(prefix) + 65535 * n + 256
  {
    hide WordSum, Repeat;
    var k := length - |prefix| - 2 * n - 1;
    var ones, tail := Repeat(255, 2 * n), [1] + Repeat(0, k);
    WordSumOnes(n);
    OneThenZeros(k);
    WordSumConcat(ones, n, tail);
    WordSumConcat(prefix, words, ones + tail);
  }

  /** 65538 words cannot leave a carry; the sum 2^32 + 65535 does. */
  lemma CarryBound(s: int)
    ensures 0 <= s <= 65538 * 65535 ==> NoCarryLeft(s)
    ensures s == 65280 + 65535 * 65537 + 256 ==> !NoCarryLeft(s)
  {
  }

  /** checkSum is the Internet checksum of every message of a given length, if and only if that is at most 131076 bytes. */
  lemma ExactUpToLength(length: nat)
    ensures length <= 131076 <==>
            (forall m: seq<byte> | |m| == length && WordSum(m) < 0x8000_0000_0000_0000 ::
               65535 - TwoFolds(WordSum(m)) == InternetChecksum(m))
  {
    if length <= 131076 {
      forall m: seq<byte> | |m| == length && WordSum(m) < 0x8000_0000_0000_0000
        ensures 65535 - TwoFolds(WordSum(m)) == InternetChecksum(m)
      {
        WordSumBound(m);
        CarryBound(WordSum(m));
        TwoFoldsExactIffOfMessage(m);
      }
    } else {
      var n: nat :| n == 65537;
      assert WordSum([255, 0]) == 65280;
      OverlongSum([255, 0], 1, n, length);
      CarryBound(WordSum(Overlong([255, 0], n, length)));
      TwoFoldsExactIffOfMessage(Overlong([255, 0], n, length));
    }
  }

  // -------------------------------------------------- storing the checksum

  /** The message with checksum c in bytes 2 and 3. */
  function Stored(m: seq<byte>, c: int): (r: seq<byte>)
    requires |m| >= 4 && 0 <= c < 65536
  {
    m[2 := c / 256][3 := c % 256]
  }

  lemma StoredSum(m: seq<byte>, c: int)
    requires |m| >= 4 && 0 <= c < 65536 && m[2] == 0 && m[3] == 0
    ensures WordSum(Stored(m, c)) == WordSum(m) + c
  {
    var r := Stored(m, c);
    TwoWords(m);
    TwoWords(r);
    assert r[4..] == m[4..];
    assert Word(c / 256, c % 256) == c;
  }

  lemma TwoWords(m: seq<byte>)
    requires |m| >= 4
    ensures WordSum(m) == Word(m[0], m[1]) + Word(m[2], m[3]) + WordSum(m[4..])
  {
    assert m[2..][2..] == m[4..];
  }

  /** Up to 2^32 words the second fold leaves at most one carry, and none for a multiple of 65535. */
  lemma FoldBounds(s: int)
    requires 0 <= s <= 65535 * 0x1_0000_0000
    ensures 0 <= Fold(Fold(s)) <= 131070
    ensures s == 65535 * (s / 65536 + Fold(s) / 65536) + Fold(Fold(s))
    ensures s > 0 && s % 65535 == 0 ==> Fold(Fold(s)) == 65535
  {
    var f := Fold(s);
    assert 0 <= f <= 65535 * 65537;
    assert s == 65535 * (s / 65536) + f;
    assert f == 65535 * (f / 65536) + Fold(f);
    if s > 0 && s % 65535 == 0 {
      assert f <= 65535 * 65536;
    }
  }

  /** s leaves g, and s plus the complement of the low half of g leaves h. */
  lemma Residues(s: int, k: int, g: int, l: int, h: int)
    requires s == 65535 * k + g && k >= 0 && 0 <= g <= 131070
    requires s + 65535 - g % 65536 == 65535 * l + h && 0 <= h <= 131070
    ensures g < 65536 ==> (s + 65535 - g % 65536) % 65535 == 0 && s + 65535 - g % 65536 > 0
    ensures g >= 65536 ==> h % 65536 != 65535
  {
    if g < 65536 {
      assert s + 65535 - g % 65536 == 65535 * (k + 1);
    } else {
      assert h == 65535 * (k + 2 - l) + 1;
    }
  }

  lemma StoredVerifiesArithmetic(s: int)
    requires 0 <= s <= 65535 * 0xffff_ffff
    ensures TwoFolds(s + 65535 - TwoFolds(s)) == 65535 <==> NoCarryLeft(s)
  {
    hide Fold, TwoFolds;
    TwoFoldsIsFoldFold(s);
    var s' := s + 65535 - TwoFolds(s);
    TwoFoldsIsFoldFold(s');
    FoldBounds(s);
    FoldBounds(s');
    var k, k' := s / 65536 + Fold(s) / 65536, s' / 65536 + Fold(s') / 65536;
    FoldNonNegative(s);
    Residues(s, k, Fold(Fold(s)), k', Fold(Fold(s')));
  }

  lemma FoldNonNegative(s: int)
    requires s >= 0
    ensures Fold(s) >= 0 && s / 65536 + Fold(s) / 65536 >= 0
  {
  }

  lemma TwoFoldsIsFoldFold(s: int)
    requires s >= 0
    ensures TwoFolds(s) == Fold(Fold(s)) % 65536
  {
  }

  /**
   Storing the checksum in a zero checksum field makes the checksum of the whole
   message 0, if and only if the two folds of the message left no carry.
   */
  lemma StoredVerifiesIff(m: seq<byte>)
    requires |m| >= 4 && m[2] == 0 && m[3] == 0 && |m| <= 0x1_ffff_fffe
    ensures var c := 65535 - TwoFolds(WordSum(m));
            65535 - TwoFolds(WordSum(Stored(m, c))) == 0 <==> NoCarryLeft(WordSum(m))
  {
    StoredSum(m, 65535 - TwoFolds(WordSum(m)));
    WordSumBound(m);
    StoredVerifiesArithmetic(WordSum(m));
  }

  /** A zero field leaves room for one word more: storing works for every such message of up to 131078 bytes, and no longer. */
  lemma StoredVerifiesUpToLength(length: nat)
    requires 4 <= length <= 0x1_ffff_fffe
    ensures length <= 131078 <==>
            (forall m: seq<byte> | |m| == length && m[2] == 0 && m[3] == 0 ::
               TwoFolds(WordSum(Stored(m, 65535 - TwoFolds(WordSum(m))))) == 65535)
  {
    hide WordSum, NoCarryLeft, TwoFolds, Stored;
    if length <= 131078 {
      forall m: seq<byte> | |m| == length && m[2] == 0 && m[3] == 0
        ensures TwoFolds(WordSum(Stored(m, 65535 - TwoFolds(WordSum(m))))) == 65535
      {
        ZeroFieldBound(m);
        CarryBound(WordSum(m));
        StoredVerifiesIff(m);
      }
    } else {
      var m := ZeroFieldOverlong(length);
      StoredVerifiesIff(m);
    }
  }

  lemma ZeroFieldOverlong(length: nat) returns (m: seq<byte>)
    requires length >= 131079
    ensures |m| == length && m[2] == 0 && m[3] == 0 && !NoCarryLeft(WordSum(m))
  {
    hide Overlong, NoCarryLeft;
    var n: nat :| n == 65537;
    var p: seq<byte> := [255, 0, 0, 0];
    TwoWords(p);
    OverlongSum(p, 2, n, length);
    m := Overlong(p, n, length);
    assert m[2] == p[2] && m[3] == p[3];
    CarryBound(WordSum(m));
  }

  lemma ZeroFieldBound(m: seq<byte>)
    requires |m| >= 4 && m[2] == 0 && m[3] == 0
    ensures WordSum(m) <= 65535 * ((|m| - 1) / 2)
  {
    TwoWords(m);
    WordSumBound(m[4..]);
    hide WordSum;
    var h := (|m| - 3) / 2;
    assert (|m[4..]| + 1) / 2 == h && (|m| - 1) / 2 == h + 1;
    assert Word(m[0], m[1]) <= 65535;
  }

  // -------------------------------------------------------- echo messages

  lemma HighAndLow(v: int)
    ensures 256 * (v / 256 % 256) + v % 256 == v % 65536
  {
    var q, r := v / 256, v % 256;
    assert v == 65536 * (q / 256) + (256 * (q % 256) + r);
    DivModUnique(v, 65536, q / 256, 256 * (q % 256) + r);
  }

  /** gensequence: the two bytes of an int16, high one first. */
  method GenSequence(v: int) returns (hi: byte, lo: byte)
    requires -0x8000 <= v < 0x8000
    ensures 256 * (hi as int) + lo as int == v % 65536
  {
    hide And, Pow2;
    PowValues();
    LowMask(v, 8, 256);
    HighAndLow(v);
    hi := (v / 256) % 256;
    lo := And(v, 255) % 256;
  }

  /** The echo request of Ping: every one it builds passes its own checksum, whatever its size. */
  method BuildEcho(size: nat, id0: byte, id1: byte, seqNo: int) returns (msg: array<byte>)
    requires -0x8000 <= seqNo < 0x8000
    ensures fresh(msg) && msg.Length == size + 8
    ensures msg[0] == 8 && msg[1] == 0 && msg[4] == id0 && msg[5] == id1 && 256 * (msg[6] as int) + msg[7] as int == seqNo % 65536
    ensures forall i | 8 <= i < msg.Length :: msg[i] == 0
    ensures InternetChecksum(msg[..]) == 0 == 65535 - TwoFolds(WordSum(msg[..]))
  {
    hide WordSum, TwoFolds, NoCarryLeft, InternetChecksum, Word;
    var hi, lo := GenSequence(seqNo);
    msg := new byte[size + 8](_ => 0);
    msg[0] := 8;
    msg[4], msg[5] := id0, id1;
    msg[6], msg[7] := hi, lo;
    var m := msg[..];
    var check := CheckSum(m);
    EchoSum(m, size);
    StoredVerifiesArithmetic(WordSum(m));
    StoredSum(m, check);
    msg[2] := check / 256;
    msg[3] := check % 256;
    assert msg[..] == Stored(m, check);
    TwoFoldsExactIffOfMessage(msg[..]);
    CarryBound(WordSum(msg[..]));
  }

  lemma EchoSum(m: seq<byte>, size: nat)
    requires |m| == size + 8 && m[2] == 0 && m[3] == 0 && m[8..] == Repeat(0, size)
    ensures WordSum(m) <= 3 * 65535 && NoCarryLeft(WordSum(m))
  {
    TwoWords(m);
    TwoWords(m[4..]);
    assert m[4..][4..] == m[8..];
    WordSumZeros(size);
    hide WordSum;
    CarryBound(WordSum(m));
  }
}
