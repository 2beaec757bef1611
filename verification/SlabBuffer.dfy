/**
 The growing byte FIFO of util/mem/SlabBuffer.go, with the aligned allocation of
 util/mem/directio.go.  A Go slice is a backing array from its first element on
 (so the array's length is the slice's capacity) and a length.  The address a
 fresh allocation gets is a parameter; the mutex and the log lines are left out.
 */
module SlabBuffer {
  import opened Bits
  import opened Bytes
  import opened Wrappers

  const SMALL_BUFFER_SIZE := 409600
  const BLOCK_SIZE := 512
  const DEFAULT_BUF_SIZE := 8192
  const MAX_INT := 0x7fff_ffff_ffff_ffff

  datatype Error = EOF | TooLarge | NoError

  // ------------------------------------------------------ aligned allocation

  /** Rounds down to whole blocks, to 8192 at least: it can fall short of iSize, by less than a block. */
  function AlignSize(iSize: int): (r: int)
    ensures r >= DEFAULT_BUF_SIZE && r % BLOCK_SIZE == 0
    ensures iSize - BLOCK_SIZE < r
    ensures iSize >= DEFAULT_BUF_SIZE ==> r <= iSize
  {
    AlignArithmetic(iSize);
    var a := if iSize % BLOCK_SIZE != 0 then And(iSize, -BLOCK_SIZE) else iSize;
    if a < DEFAULT_BUF_SIZE then DEFAULT_BUF_SIZE else a
  }

  lemma AlignArithmetic(x: int)
    ensures And(x, -BLOCK_SIZE) == x - x % BLOCK_SIZE
    ensures And(x, BLOCK_SIZE - 1) == x % BLOCK_SIZE
    ensures (x - x % BLOCK_SIZE) % BLOCK_SIZE == 0
  {
    hide And, Pow2;
    PowValues();
    HighMask(x, 9, 512);
    LowMask(x, 9, 512);
  }

  /** The rounded size is short of what was asked for exactly when that is over 8192 and not whole blocks. */
  lemma RoundingFallsShort(n: int)
    ensures AlignSize(n) < n <==> n > 8192 && n % 512 != 0
  {
    AlignArithmetic(n);
  }

  /** With at least 8192 bytes in use the rounded size of grow still has room for the old contents and n bytes. */
  lemma RoundingLeavesRoom(c: int, n: nat)
    requires c >= DEFAULT_BUF_SIZE
    ensures AlignSize(2 * c + n) >= c + n
  {
    hide AlignSize;
  }

  /** The offset arithmetic of allocAlignedBuf for a buffer at address addr. */
  lemma OffsetAligns(addr: nat)
    ensures var a1 := And(addr, BLOCK_SIZE - 1);
            var offset := if a1 != 0 then BLOCK_SIZE - a1 else 0;
            0 <= offset < BLOCK_SIZE && And(addr + offset, BLOCK_SIZE - 1) == 0 && (addr + offset) % BLOCK_SIZE == 0
  {
    hide And;
    AlignArithmetic(addr);
    var a1 := addr % BLOCK_SIZE;
    var offset := if a1 != 0 then BLOCK_SIZE - a1 else 0;
    AlignArithmetic(addr + offset);
    assert (addr + offset) % BLOCK_SIZE == 0 by {
      var q := addr / 512;
      DivModUnique(addr + offset, 512, if a1 != 0 then q + 1 else q, 0);
    }
  }

  /** Fails for size 0 only; otherwise n aligned bytes, and the second alignment check never fails. */
  method AllocAlignedBuf(n: nat, addr: nat) returns (ok: bool, buf: array<byte>, base: nat)
    ensures ok <==> n > 0
    ensures fresh(buf) && (ok ==> n <= buf.Length <= n + BLOCK_SIZE && base % BLOCK_SIZE == 0)
    ensures ok ==> addr <= base && base + buf.Length == addr + n + BLOCK_SIZE
  {
    hide And;
    buf := new byte[0];
    base := addr;
    if n == 0 {
      return false, buf, base;
    }
    OffsetAligns(addr);
    var a1 := And(addr, BLOCK_SIZE - 1);
    var offset := 0;
    if a1 != 0 {
      offset := BLOCK_SIZE - a1;
    }
    base := addr + offset;
    buf := new byte[n + BLOCK_SIZE - offset](_ => 0);
    if a1 == 0 {
      return true, buf, base;
    }
    var a2 := And(base, BLOCK_SIZE - 1);
    ok := a2 == 0;
  }

  // ------------------------------------------------------------- the buffer

  lemma SplicedTail(s: seq<byte>, off: nat, at: nat, x: seq<byte>)
    requires off <= at && at + |x| <= |s|
    ensures Splice(s, at, x)[off..at + |x|] == s[off..at] + x
  {
  }

  /** Copying the bytes from off on to the front brings the first k of them there. */
  lemma SlidDown(s: seq<byte>, off: nat, m: nat, k: nat)
    requires k <= m && off + m <= |s|
    ensures Splice(s, 0, s[off..off + m])[..k] == s[off..off + k]
  {
  }

  lemma SplicedHead(s: seq<byte>, x: seq<byte>)
    requires |x| <= |s|
    ensures Splice(s, 0, x)[..|x|] == x && Splice(s, 0, x)[|x|..] == s[|x|..]
  {
  }

  /** base[lo:hi]; what is written to base shows in it. */
  datatype Slice = Slice(base: array<byte>, lo: nat, hi: nat)

  class SlabBuffer {
    /** buf is data[..len] with capacity data.Length; isNil tells a nil slice from an empty one. */
    var data: array<byte>
    var len: int
    var isNil: bool
    var off: int
    var on: int
    const align: bool

    /** Everything written since the last reset, and everything handed out of it. */
    ghost var written: seq<byte>
    ghost var taken: seq<byte>

    ghost function Unread(): seq<byte>
      requires 0 <= off <= on <= data.Length
      reads this, data
    {
      data[off..on]
    }

    /** First in, first out: what was taken, followed by what is unread, is what was written. */
    ghost predicate Valid()
      reads this, data
    {
      && 0 <= off <= on <= len <= data.Length
      && (isNil ==> data.Length == 0)
      && (align ==> data.Length >= DEFAULT_BUF_SIZE)
      && taken + Unread() == written
    }

    /** The zero value, ready to use. */
    constructor Zero()
      ensures Valid() && Unread() == [] && written == [] && fresh(data) && !align
    {
      data := new byte[0];
      len, off, on, isNil, align := 0, 0, 0, true, false;
      written, taken := [], [];
    }

    /** NewSlabBuffInit; NewSlabBuff is the same with smallBufferSize. */
    constructor Init(iSize: nat)
      ensures Valid() && Unread() == [] && written == [] && fresh(data) && !align && len == data.Length == iSize
    {
      data := new byte[iSize](_ => 0);
      len, off, on, isNil, align := iSize, 0, 0, false, false;
      written, taken := [], [];
    }

    /** NewSlabBuffInitAlign, which cannot fail: the aligned size is never 0. */
    constructor InitAlign(iSize: int, addr: nat)
      ensures Valid() && Unread() == [] && written == [] && fresh(data) && align && len == AlignSize(iSize)
    {
      var n := AlignSize(iSize);
      var ok, buf, base := AllocAlignedBuf(n, addr);
      data := buf;
      len, off, on, isNil, align := n, 0, 0, false, true;
      written, taken := [], [];
    }

    predicate Empty()
      reads this
    {
      on <= off || isNil
    }

    predicate IsEnough(increment: int)
      reads this
    {
      on + increment <= len - 1
    }

    /** reset keeps the storage. */
    method Truncate()
      modifies this`len, this`off, this`on
      ensures len == off == on == 0
    {
      len, off, on := 0, 0, 0;
    }

    method Reset()
      requires Valid()
      modifies this
      ensures Valid() && data == old(data) && Unread() == [] && written == [] == taken
    {
      Truncate();
      written, taken := [], [];
    }

    method TryGrowByReSlice(n: nat) returns (l: int, ok: bool)
      requires Valid()
      modifies this`len
      ensures Valid() && ok == (n <= data.Length - old(len))
      ensures if ok then l == old(len) && len == old(len) + n else len == old(len)
    {
      if n <= data.Length - len {
        l := len;
        len := len + n;
        return l, true;
      }
      return 0, false;
    }

    /** Makes room for n more bytes without losing an unread one; TooLarge is the panic. */
    method Grow(n: nat, addr: nat) returns (err: Error)
      requires Valid()
      modifies this`data, this`len, this`isNil, this`off, this`on, data
      ensures Valid() && (data == old(data) || fresh(data)) && Unread() == old(Unread())
      ensures err == NoError ==> on + n <= len
      ensures err == NoError || (err == TooLarge && 2 * old(data.Length) + n > MAX_INT)
      ensures n <= old(data.Length - len) || n <= old(data.Length) / 2 - old(len - off) ==> data == old(data) || old(isNil)
      ensures fresh(data) ==>
                if old(isNil) && n <= 409600 then data.Length == 409600
                else if align then -511 <= data.Length - (2 * old(data.Length) + n) <= 512
                else data.Length == 2 * old(data.Length) + n
    {
      var m := len - off;
      if m == 0 && off != 0 {
        Truncate();
      }
      var i, ok := TryGrowByReSlice(n);
      if ok {
        return NoError;
      }
      if isNil && n <= SMALL_BUFFER_SIZE {
        data := new byte[SMALL_BUFFER_SIZE](_ => 0);
        len, isNil := n, false;
        return NoError;
      }
      var c := data.Length;
      if n <= c / 2 - m {
        Slide(m, n);
      } else if c > MAX_INT - c - n {
        return TooLarge;
      } else {
        Reallocate(m, n, addr);
      }
      return NoError;
    }

    /** The slide-down branch of grow. */
    method Slide(m: int, n: nat)
      requires Valid() && m == len - off && n <= data.Length / 2 - m
      modifies this`len, this`off, this`on, data
      ensures Valid() && Unread() == old(Unread()) && on + n <= len
    {
      hide Splice;
      ghost var before, was := Unread(), data[..];
      CopyAt(data, 0, data[off..off + m]);
      SlidDown(was, off, m, on - off);
      assert data[..on - off] == data[..][..on - off];
      assert before == was[off..on];
      on := if on - off < 0 then 0 else on - off;
      off := 0;
      len := m + n;
    }

    /** A larger storage that begins with the m bytes from off on; in aligned mode its size is rounded down. */
    method Enlarged(m: nat, n: nat, addr: nat) returns (buf: array<byte>)
      requires Valid() && off + m == len
      ensures fresh(buf) && buf.Length >= m + n && buf[..m] == data[off..len]
      ensures if align then -511 <= buf.Length - (2 * data.Length + n) <= 512 else buf.Length == 2 * data.Length + n
      ensures align ==> buf.Length >= DEFAULT_BUF_SIZE
    {
      hide AlignSize, Splice;
      var c := data.Length;
      if align {
        var ok, base;
        ok, buf, base := AllocAlignedBuf(AlignSize(2 * c + n), addr);
      } else {
        buf := new byte[2 * c + n](_ => 0);
      }
      ghost var was := buf[..];
      CopyAt(buf, 0, data[off..len]);
      SplicedHead(was, data[off..len]);
      assert buf[..m] == buf[..][..m];
    }

    /** The allocating branch of grow, in which the rounded size still suffices. */
    method Reallocate(m: int, n: nat, addr: nat)
      requires Valid() && m == len - off
      modifies this`data, this`len, this`isNil, this`off, this`on
      ensures Valid() && fresh(data) && Unread() == old(Unread()) && on + n <= len
      ensures if align then -511 <= data.Length - (2 * old(data.Length) + n) <= 512 else data.Length == 2 * old(data.Length) + n
    {
      ghost var kept := data[off..len];
      assert kept[..on - off] == Unread();
      var buf := Enlarged(m, n, addr);
      assert buf[..m] == kept;
      assert buf[..m][..on - off] == buf[..on - off];
      data := buf;
      isNil := false;
      on := if on - off < 0 then 0 else on - off;
      off := 0;
      len := m + n;
    }

    /** copy(buf[on:], p) of WriteUnsafeDirectly. */
    method CopyIn(p: seq<byte>) returns (n: int)
      requires Valid()
      modifies this`on, this`written, data
      ensures Valid() && n == (if |p| <= len - old(on) then |p| else len - old(on))
      ensures Unread() == old(Unread()) + p[..n] && written == old(written) + p[..n]
    {
      ghost var before := Unread();
      n := if |p| <= len - on then |p| else len - on;
      hide Splice;
      ghost var was, x := data[..], p[..n];
      CopyAt(data, on, p[..n]);
      SplicedTail(was, off, on, x);
      assert data[off..on + n] == data[..][off..on + n];
      assert before == was[off..on];
      assert taken + (before + x) == (taken + before) + x;
      on := on + n;
      written := written + p[..n];
    }

    /** Stores all of p behind what is unread, or panics with everything kept. */
    method WriteUnsafeDirectly(p: seq<byte>, addr: nat) returns (n: int, err: Error)
      requires Valid()
      modifies this, data
      ensures Valid() && (data == old(data) || fresh(data)) && taken == old(taken)
      ensures err == NoError ==> n == |p| && Unread() == old(Unread()) + p && written == old(written) + p
      ensures err != NoError ==> err == TooLarge && Unread() == old(Unread()) && written == old(written)
      ensures err == TooLarge ==> 2 * old(data.Length) + |p| > MAX_INT
    {
      if !IsEnough(|p|) {
        var _, ok := TryGrowByReSlice(|p|);
        if !ok {
          err := Grow(|p|, addr);
          if err != NoError {
            return 0, err;
          }
        }
      }
      assert Unread() == old(Unread());
      n := CopyIn(p);
      err := NoError;
    }

    /** Hands out the oldest bytes; an empty p on a non-empty buffer gets EOF, and an empty buffer is reset. */
    method Read(p: array<byte>) returns (n: int, err: Error)
      requires Valid()
      modifies this, p
      ensures Valid() && data == old(data) && written == old(written)
      ensures n == if p.Length <= |old(Unread())| then p.Length else |old(Unread())|
      ensures err == if n > 0 || (old(Empty()) && p.Length == 0) then NoError else EOF
      ensures p[..n] + Unread() == old(Unread()) && taken == old(taken) + p[..n]
      ensures p[n..] == old(p[n..])
    {
      if Empty() {
        Truncate();
        if p.Length == 0 {
          return 0, NoError;
        }
        return 0, EOF;
      }
      var bufLen := p.Length;
      var m := on - off;
      if m < bufLen {
        bufLen := m;
      }
      if bufLen <= 0 {
        return 0, EOF;
      }
      CopyOut(p, bufLen);
      return bufLen, NoError;
    }

    /** The copy of Read; into the buffer's own storage it takes all there is. */
    method CopyOut(p: array<byte>, n: nat)
      requires Valid() && n <= on - off && n <= p.Length && (p == data ==> n == on - off)
      modifies this`off, this`taken, p
      ensures Valid() && p[..n] + Unread() == old(Unread()) && taken == old(taken) + p[..n] && p[n..] == old(p[n..])
    {
      ghost var unread := data[off..on];
      hide Splice;
      ghost var was := p[..];
      CopyAt(p, 0, data[off..off + n]);
      SplicedHead(was, unread[..n]);
      assert p[..n] == p[..][..n] == unread[..n];
      assert p[n..] == p[..][n..] == was[n..];
      assert data[off + n..on] == unread[n..];
      assert unread == unread[..n] + unread[n..];
      assert taken + unread == (taken + unread[..n]) + unread[n..];
      taken := taken + p[..n];
      off := off + n;
      assert Unread() == unread[n..];
    }

    /** At most n of the oldest bytes, as a slice of the buffer's own storage; None is the slice panic on a negative n. */
    method Next(n: int) returns (r: Option<Slice>)
      requires Valid()
      modifies this`off, this`taken
      ensures Valid() && r.None? == (n < 0)
      ensures n < 0 ==> off == old(off) && taken == old(taken)
      ensures n >= 0 ==> r.value.base == data && r.value.lo == old(off) && r.value.hi == off
      ensures n >= 0 ==> off - old(off) == if n <= |old(Unread())| then n else |old(Unread())|
      ensures n >= 0 ==> data[old(off)..off] + Unread() == old(Unread()) && taken == old(taken) + data[old(off)..off]
    {
      var m := on - off;
      var k := if n > m then m else n;
      if k < 0 {
        return None;
      }
      assert data[off..on] == data[off..off + k] + data[off + k..on];
      r := Some(Slice(data, off, off + k));
      taken := taken + data[off..off + k];
      off := off + k;
    }
  }

  // ------------------------------------------------------------------- runs

  datatype Op = Write(p: seq<byte>) | Read(size: nat) | Next(n: int)

  function Written(op: Op): seq<byte> { if op.Write? then op.p else [] }

  /** All bytes written by a run, in order. */
  function Input(ops: seq<Op>): seq<byte> {
    if ops == [] then [] else Input(ops[..|ops| - 1]) + Written(ops[|ops| - 1])
  }

  method RunOne(s: SlabBuffer, op: Op, addr: nat) returns (got: seq<byte>, panicked: bool)
    requires s.Valid()
    modifies s, s.data
    ensures s.Valid() && (s.data == old(s.data) || fresh(s.data))
    ensures !panicked ==> got + s.Unread() == old(s.Unread()) + Written(op)
    ensures panicked ==> op.Write? && got == [] && s.Unread() == old(s.Unread())
  {
    got, panicked := [], false;
    match op
    case Write(p) =>
      var n, err := s.WriteUnsafeDirectly(p, addr);
      panicked := err != NoError;
    case Read(size) =>
      var p := new byte[size](_ => 0);
      var n, err := s.Read(p);
      got := p[..n];
    case Next(n) =>
      var r := s.Next(n);
      if r.Some? {
        got := r.value.base[r.value.lo..r.value.hi];
      }
  }

  lemma Conserved(
    out: seq<byte>, got: seq<byte>, before: seq<byte>, after: seq<byte>, start: seq<byte>, input: seq<byte>, p: seq<byte>)
    requires out + before == start + input && got + after == before + p
    ensures (out + got) + after == start + (input + p)
  {
    assert (out + got) + after == out + (got + after);
    assert out + (before + p) == (out + before) + p;
  }

  /**
   Over any run of writes, reads and Next calls in which no write panics, the
   bytes handed out followed by the bytes still unread are the bytes that were
   unread at the start followed by the bytes written.
   */
  method RunAll(s: SlabBuffer, ops: seq<Op>, addrs: seq<nat>) returns (out: seq<byte>, panicked: bool)
    requires s.Valid() && |addrs| == |ops|
    modifies s, s.data
    ensures s.Valid()
    ensures !panicked ==> out + s.Unread() == old(s.Unread()) + Input(ops)
  {
    out, panicked := [], false;
    ghost var start := s.Unread();
    for i := 0 to |ops|
      invariant s.Valid() && (s.data == old(s.data) || fresh(s.data))
      invariant !panicked && out + s.Unread() == start + Input(ops[..i])
    {
      ghost var before := s.Unread();
      var got;
      got, panicked := RunOne(s, ops[i], addrs[i]);
      if panicked {
        return;
      }
      assert ops[..i + 1][..i] == ops[..i];
      Conserved(out, got, before, s.Unread(), start, Input(ops[..i]), Written(ops[i]));
      out := out + got;
    }
    assert ops[..|ops|] == ops;
  }
}
