/** Bytes, runs of one byte, and Go's copy into a buffer. */
module Bytes {

  type byte = x: int | 0 <= x < 256

  function Repeat(x: byte, n: nat): (s: seq<byte>)
    ensures |s| == n && forall i | 0 <= i < n :: s[i] == x
  {
    if n == 0 then [] else [x] + Repeat(x, n - 1)
  }

  function Splice(s: seq<byte>, at: nat, src: seq<byte>): (r: seq<byte>)
    requires at + |src| <= |s|
    ensures |r| == |s|
  {
    s[..at] + src + s[at + |src|..]
  }

  /** copy(b[at:], src). */
  method CopyAt(b: array<byte>, at: nat, src: seq<byte>)
    requires at + |src| <= b.Length
    modifies b
    ensures b[..] == Splice(old(b[..]), at, src)
  {
    forall i | 0 <= i < |src| {
      b[at + i] := src[i];
    }
  }

  lemma SpliceTwice(s: seq<byte>, at: nat, x: seq<byte>, y: seq<byte>)
    requires at + |x| + |y| <= |s|
    ensures Splice(Splice(s, at, x), at + |x|, y) == Splice(s, at, x + y)
  {
  }

  /** Splicing into zeros leaves zeros behind, and padding is some of them. */
  lemma SpliceIntoZeros(s: seq<byte>, at: nat, x: seq<byte>, pad: nat)
    requires at + |x| + pad <= |s| && s[at..] == Repeat(0, |s| - at)
    ensures Splice(s, at, x) == s[..at] + (x + Repeat(0, pad)) + Repeat(0, |s| - at - |x| - pad)
  {
    assert s[at + |x|..] == s[at..][|x|..];
  }
}
