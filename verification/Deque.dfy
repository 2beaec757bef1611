/**
 The power-of-two ring deque of util/mem/queue.go, refined to a plain sequence.
 `&(len - 1)` is Bits.And; a panic is a None or false result that leaves the
 deque as it was.
 */
module Deque {
  import opened Bits
  import opened Rings
  import opened DequeShape
  import opened Wrappers

  /** interface{}: nil is a value that may be stored like any other. */
  datatype Any<+T> = Nil | Val(v: T)

  /** s rotated n steps front to back, n any integer. */
  function Rotated<T>(s: seq<T>, n: int): (r: seq<T>)
    ensures |r| == |s|
  {
    if s == [] then s else s[n % |s|..] + s[..n % |s|]
  }

  /** Element i of the rotation is element (i + n) mod Len of what was rotated. */
  lemma RotatedAt<T>(s: seq<T>, n: int, i: int)
    requires 0 <= i < |s|
    ensures Rotated(s, n)[i] == s[(i + n) % |s|]
  {
    AddMod(i, n, |s|);
  }

  /** One step more is the front element moved to the back, and the reverse. */
  lemma RotateOneMore<T>(s: seq<T>, n: int)
    requires s != []
    ensures Rotated(s, n + 1) == Rotated(s, n)[1..] + [Rotated(s, n)[0]]
    ensures Rotated(s, n) == [Rotated(s, n + 1)[|s| - 1]] + Rotated(s, n + 1)[..|s| - 1]
  {
    var m := |s|;
    var k := n % m;
    if m > 1 {
      AddMod(1, n, m);
    } else {
      assert k == 0 && (n + 1) % m == 0;
    }
  }

  lemma RotateTrivially<T>(s: seq<T>, n: int)
    ensures |s| <= 1 ==> Rotated(s, n) == s
    ensures |s| > 0 ==> Rotated(s, Rem(n, |s|)) == Rotated(s, n) && Rotated(s, 0) == s
  {
    if |s| > 0 {
      RemMod(n, |s|);
      hide Rem;
    }
  }

  lemma RemMod(n: int, m: int)
    requires m > 0
    ensures -m < Rem(n, m) < m && Rem(n, m) % m == n % m
  {
    var a := if n < 0 then -n else n;
    var q, r := a / m, a % m;
    assert a == q * m + r;
    if n >= 0 {
      DivModUnique(r, m, 0, r);
    } else if r == 0 {
      MulNeg(q, m);
      DivModUnique(n, m, -q, 0);
    } else {
      MulNeg(q, m);
      assert (-q - 1) * m == (-q) * m - m;
      DivModUnique(n, m, -q - 1, m - r);
      DivModUnique(-r, m, -1, m - r);
    }
  }

  lemma MulNeg(q: int, m: int)
    ensures (-q) * m == -(q * m)
  {
  }

  lemma AddMod(i: int, n: int, m: int)
    requires 0 <= i < m
    ensures (i + n) % m == if i + n % m < m then i + n % m else i + n % m - m
  {
    var q, k := n / m, n % m;
    if i + k < m {
      DivModUnique(i + n, m, q, i + k);
    } else {
      assert (q + 1) * m == q * m + m;
      DivModUnique(i + n, m, q + 1, i + k - m);
    }
  }

  /** Go's remainder, which takes the sign of n. */
  function Rem(n: int, m: int): int
    requires m > 0
  {
    if n >= 0 then n % m else -((-n) % m)
  }

  /** The mask gives the neighbouring slot, for -1 as well. */
  lemma MaskWraps(x: int, n: int)
    requires IsPow2(n) && -n <= x < 2 * n
    ensures And(x, n - 1) == if x < 0 then x + n else if x < n then x else x - n
  {
    PowerMask(x, n);
    if x < 0 {
      DivModUnique(x, n, -1, x + n);
    } else if x < n {
      DivModUnique(x, n, 0, x);
    } else {
      DivModUnique(x, n, 1, x - n);
    }
  }

  /** n times PopFront then PushBack. */
  function PopPush<T>(s: seq<T>, n: nat): seq<T>
    decreases n
  {
    if n == 0 || s == [] then s else PopPush(s[1..] + [s[0]], n - 1)
  }

  /** n times PopBack then PushFront. */
  function PopPushBack<T>(s: seq<T>, n: nat): seq<T>
    decreases n
  {
    if n == 0 || s == [] then s else PopPushBack([s[|s| - 1]] + s[..|s| - 1], n - 1)
  }

  /** Rotation by a and then by b is rotation by a + b. */
  lemma {:induction false} RotateTwice<T>(s: seq<T>, a: int, b: nat)
    ensures PopPush(Rotated(s, a), b) == Rotated(s, a + b)
    ensures PopPushBack(Rotated(s, a), b) == Rotated(s, a - b)
    decreases b
  {
    hide Rotated;
    if b > 0 && s != [] {
      RotateOneMore(s, a);
      RotateOneMore(s, a - 1);
      RotateTwice(s, a + 1, b - 1);
      RotateTwice(s, a - 1, b - 1);
    }
  }

  /** Rotation is the same as repeated pop and push at the ends. */
  lemma RotateIsPopPush<T>(s: seq<T>, n: nat)
    ensures PopPush(s, n) == Rotated(s, n)
    ensures PopPushBack(s, n) == Rotated(s, 0 - n)
  {
    RotateTwice(s, 0, n);
    assert Rotated(s, 0) == s;
  }

  /** 1 << exp on a 64-bit int. */
  function ShiftOne(exp: nat): int { if exp < 63 then Pow2(exp) else if exp == 63 then 0 - Pow2(63) else 0 }

  /** Moving head and tail of a full buffer rotates it. */
  lemma FullRotation<T>(s: seq<T>, head: int, n: int)
    requires 0 <= head < |s| && -|s| < n < |s|
    ensures var h := if head + n < 0 then head + n + |s| else if head + n < |s| then head + n else head + n - |s|;
            View(s, h, |s|) == Rotated(View(s, head, |s|), n)
  {
    var m := |s|;
    var k := if n < 0 then n + m else n;
    var h := Slot(m, head, k);
    var v := s[head..] + s[..head];
    RotatedIs(v, n, k);
    TwoCuts(s, head, k, h);
    assert View(s, head, m) == v;
    assert View(s, h, m) == s[h..] + s[..h];
    hide View, Rotated;
  }

  lemma RotatedIs<T>(v: seq<T>, n: int, k: int)
    requires -|v| < n < |v| && k == if n < 0 then n + |v| else n
    ensures v != [] && Rotated(v, n) == v[k..] + v[..k]
  {
    DivModUnique(n, |v|, if n < 0 then -1 else 0, k);
  }

  /** Cutting twice and swapping is cutting once, further on. */
  lemma TwoCuts<T>(s: seq<T>, head: nat, k: nat, h: nat)
    requires head < |s| && k < |s| && h == Slot(|s|, head, k)
    ensures var v := s[head..] + s[..head]; v[k..] + v[..k] == s[h..] + s[..h]
  {
    var v := s[head..] + s[..head];
    if head + k < |s| {
      assert v[k..] == s[h..] + s[..head];
      assert v[..k] == s[head..h];
      assert s[..head] + s[head..h] == s[..h];
      assert s[h..] + s[..head] + s[head..h] == s[h..] + (s[..head] + s[head..h]);
    } else {
      assert v[k..] == s[h..head];
      assert v[..k] == s[head..] + s[..h];
      assert s[h..head] + s[head..] == s[h..];
      assert s[h..head] + (s[head..] + s[..h]) == s[h..head] + s[head..] + s[..h];
    }
  }

  /** One round of the loop that moves the last element to the front. */
  lemma BackToFront<T>(s: seq<T>, head: int, count: int, x: T)
    requires 0 <= head < |s| && 1 <= count < |s|
    ensures var h, t := if head == 0 then |s| - 1 else head - 1, Slot(|s|, head, count - 1);
            View(s[h := s[t]][t := x], h, count)
            == [View(s, head, count)[count - 1]] + View(s, head, count)[..count - 1]
  {
    var h, t := if head == 0 then |s| - 1 else head - 1, Slot(|s|, head, count - 1);
    DropLast(s, head, count, x);
    Prepend(s, head, count, s[t]);
    DropLast(s[h := s[t]], h, count + 1, x);
  }

  /** One round of the loop that moves the first element to the back. */
  lemma FrontToBack<T>(s: seq<T>, head: int, count: int, x: T)
    requires 0 <= head < |s| && 1 <= count < |s|
    ensures var t := Slot(|s|, head, count);
            View(s[t := s[head]][head := x], Slot(|s|, head, 1), count)
            == View(s, head, count)[1..] + [View(s, head, count)[0]]
  {
    var t := Slot(|s|, head, count);
    DropFirst(s, head, count, x);
    Append(s, head, count, s[head]);
    DropFirst(s[t := s[head]], head, count + 1, x);
  }

  /** Slot j is passed on the way round from head to tail. */
  predicate Between(head: int, tail: int, j: int) { if head <= tail then head <= j < tail else j >= head || j < tail }

  class Deque<T> {
    var buf: array<Any<T>>
    var head: int
    var tail: int
    var count: int
    var minCap: int
    /** Elements copied by resize so far. */
    ghost var copied: int

    ghost function Shape(): Shape
      reads this
    {
      DequeShape.Shape.Shape(count, buf.Length, minCap)
    }

    /** The buffer length is 0 or a power of two, and tail is head + count modulo that length. */
    ghost predicate Valid()
      reads this
    {
      && Ok(Shape())
      && if buf.Length == 0 then head == tail == 0
         else 0 <= head < buf.Length && tail == Slot(buf.Length, head, count)
    }

    /** tail = (head + count) mod length, which tells where the next element goes. */
    lemma TailIsModulus()
      requires Valid() && buf.Length > 0
      ensures tail == (head + count) % buf.Length
      ensures tail == head <==> count == 0 || count == buf.Length
    {
      SlotIsModulus(buf.Length, head, count);
    }

    ghost function Contents(): (s: seq<Any<T>>)
      requires Valid()
      reads this, buf
      ensures |s| == count
    {
      View(buf[..], head, count)
    }

    /** The zero Deque. */
    constructor Zero()
      ensures Valid() && Contents() == [] && Shape() == DequeShape.Shape.Shape(0, 0, 0) && copied == 0 && fresh(buf)
    {
      buf := new Any<T>[0];
      head, tail, count, minCap, copied := 0, 0, 0, 0, 0;
    }

    /** New(size...): capacity and minimum are rounded up to powers of two. */
    constructor New(size: seq<int>)
      ensures Valid() && Contents() == [] && copied == 0 && fresh(buf)
      ensures IsPow2(minCap) && minCap >= 16 && (|size| >= 2 ==> minCap >= size[1])
      ensures minCap > 16 ==> |size| >= 2 && minCap < 2 * size[1]
      ensures buf.Length == 0 <==> |size| == 0 || size[0] == 0
      ensures buf.Length != 0 ==> buf.Length >= size[0] && (buf.Length == minCap || buf.Length < 2 * size[0])
    {
      var capacity, minimum := 0, 0;
      if |size| >= 1 {
        capacity := size[0];
        if |size| >= 2 {
          minimum := size[1];
        }
      }
      var min := MIN_CAPACITY;
      assert min == Pow2(4);
      while min < minimum
        invariant IsPow2(min) && min >= MIN_CAPACITY && (min > MIN_CAPACITY ==> min < 2 * minimum)
      {
        PowFacts(min);
        min := 2 * min;
      }
      var bufSize := 0;
      if capacity != 0 {
        bufSize := min;
        while bufSize < capacity
          invariant IsPow2(bufSize) && bufSize >= min && (bufSize > min ==> bufSize < 2 * capacity)
        {
          PowFacts(bufSize);
          bufSize := 2 * bufSize;
        }
      }
      buf := new Any<T>[bufSize](_ => Nil);
      head, tail, count, copied := 0, 0, 0, 0;
      minCap := min;
    }

    method Cap() returns (n: int)
      ensures n == buf.Length
    {
      n := buf.Length;
    }

    method Len() returns (n: int)
      requires Valid()
      ensures n == |Contents()|
    {
      n := count;
    }

    /** resize: exactly twice the contents, laid out from the start of a new buffer. */
    method Resize()
      requires Valid() && count > 0 && IsPow2(2 * count) && 2 * count >= MIN_CAPACITY
      modifies this`buf, this`head, this`tail, this`copied
      ensures Valid() && fresh(buf) && buf.Length == 2 * count && copied == old(copied) + count
      ensures Contents() == old(Contents())
    {
      ghost var was := buf[..];
      var newBuf := new Any<T>[2 * count](_ => Nil);
      if tail > head {
        forall i | 0 <= i < tail - head {
          newBuf[i] := buf[head + i];
        }
      } else {
        var n := buf.Length - head;
        forall i | 0 <= i < n {
          newBuf[i] := buf[head + i];
        }
        forall i | 0 <= i < tail {
          newBuf[n + i] := buf[i];
        }
      }
      assert newBuf[..count] == View(was, head, count);
      head := 0;
      tail := count;
      buf := newBuf;
      copied := copied + count;
    }

    method GrowIfFull()
      requires Valid()
      modifies this`buf, this`head, this`tail, this`minCap, this`copied
      ensures Valid() && count < buf.Length && (buf == old(buf) || fresh(buf))
      ensures Contents() == old(Contents())
      ensures Shape() == Grown(old(Shape())) && copied == old(copied) + GrowCost(old(Shape()))
    {
      if count != buf.Length {
        return;
      }
      if buf.Length == 0 {
        if minCap == 0 {
          minCap := MIN_CAPACITY;
          assert MIN_CAPACITY == Pow2(4);
        }
        buf := new Any<T>[minCap](_ => Nil);
        return;
      }
      PowFacts(buf.Length);
      Resize();
    }

    method ShrinkIfExcess()
      requires Valid()
      modifies this`buf, this`head, this`tail, this`copied
      ensures Valid() && (buf == old(buf) || fresh(buf))
      ensures Contents() == old(Contents())
      ensures Shape() == Shrunk(old(Shape())) && copied == old(copied) + ShrinkCost(old(Shape()))
    {
      if buf.Length > minCap && 4 * count == buf.Length {
        PowFacts(buf.Length);
        PowGap(buf.Length, minCap);
        Resize();
      }
    }

    method PushBack(elem: Any<T>)
      requires Valid()
      modifies this, buf
      ensures Valid() && (buf == old(buf) || fresh(buf))
      ensures Contents() == old(Contents()) + [elem]
      ensures Shape() == Step(old(Shape()), Push) && copied == old(copied) + Cost(old(Shape()), Push)
    {
      hide View, And, IsPow2;
      GrowIfFull();
      Append(buf[..], head, count, elem);
      buf[tail] := elem;
      MaskWraps(tail + 1, buf.Length);
      tail := And(tail + 1, buf.Length - 1);
      count := count + 1;
    }

    method PushFront(elem: Any<T>)
      requires Valid()
      modifies this, buf
      ensures Valid() && (buf == old(buf) || fresh(buf))
      ensures Contents() == [elem] + old(Contents())
      ensures Shape() == Step(old(Shape()), Push) && copied == old(copied) + Cost(old(Shape()), Push)
    {
      hide View, And, IsPow2;
      GrowIfFull();
      Prepend(buf[..], head, count, elem);
      MaskWraps(head - 1, buf.Length);
      head := And(head - 1, buf.Length - 1);
      buf[head] := elem;
      count := count + 1;
    }

    /** None is the panic on an empty deque. */
    method PopFront() returns (r: Option<Any<T>>)
      requires Valid()
      modifies this, buf
      ensures Valid() && (buf == old(buf) || fresh(buf))
      ensures old(Contents()) == [] ==> r == None && Contents() == []
      ensures old(Contents()) != [] ==> r.Some? && [r.value] + Contents() == old(Contents())
      ensures Shape() == Step(old(Shape()), Pop) && copied == old(copied) + Cost(old(Shape()), Pop)
    {
      hide View, And, IsPow2;
      if count <= 0 {
        return None;
      }
      DropFirst(buf[..], head, count, Nil);
      r := Some(buf[head]);
      buf[head] := Nil;
      MaskWraps(head + 1, buf.Length);
      head := And(head + 1, buf.Length - 1);
      count := count - 1;
      ShrinkIfExcess();
    }

    method PopBack() returns (r: Option<Any<T>>)
      requires Valid()
      modifies this, buf
      ensures Valid() && (buf == old(buf) || fresh(buf))
      ensures old(Contents()) == [] ==> r == None && Contents() == []
      ensures old(Contents()) != [] ==> r.Some? && Contents() + [r.value] == old(Contents())
      ensures Shape() == Step(old(Shape()), Pop) && copied == old(copied) + Cost(old(Shape()), Pop)
    {
      hide View, And, IsPow2;
      if count <= 0 {
        return None;
      }
      DropLast(buf[..], head, count, Nil);
      MaskWraps(tail - 1, buf.Length);
      tail := And(tail - 1, buf.Length - 1);
      r := Some(buf[tail]);
      buf[tail] := Nil;
      count := count - 1;
      ShrinkIfExcess();
    }

    method Front() returns (r: Option<Any<T>>)
      requires Valid()
      ensures r == if Contents() == [] then None else Some(Contents()[0])
    {
      if count <= 0 {
        return None;
      }
      r := Some(buf[head]);
    }

    method Back() returns (r: Option<Any<T>>)
      requires Valid()
      ensures r == if Contents() == [] then None else Some(Contents()[|Contents()| - 1])
    {
      if count <= 0 {
        return None;
      }
      MaskWraps(tail - 1, buf.Length);
      r := Some(buf[And(tail - 1, buf.Length - 1)]);
    }

    method At(i: int) returns (r: Option<Any<T>>)
      requires Valid()
      ensures r == if 0 <= i < |Contents()| then Some(Contents()[i]) else None
    {
      if i < 0 || i >= count {
        return None;
      }
      MaskWraps(head + i, buf.Length);
      r := Some(buf[And(head + i, buf.Length - 1)]);
    }

    /** False is the panic on an index out of range. */
    method Set(i: int, elem: Any<T>) returns (ok: bool)
      requires Valid()
      modifies buf
      ensures Valid() && ok == (0 <= i < |old(Contents())|)
      ensures Contents() == if ok then old(Contents())[i := elem] else old(Contents())
    {
      if i < 0 || i >= count {
        return false;
      }
      hide View, And, IsPow2;
      MaskWraps(head + i, buf.Length);
      SetAt(buf[..], head, count, i, elem);
      buf[And(head + i, buf.Length - 1)] := elem;
      return true;
    }

    /** Empties the deque and keeps the buffer; a full buffer is not even walked, since head is tail. */
    method Clear()
      requires Valid()
      modifies this`head, this`tail, this`count, buf
      ensures Valid() && Contents() == [] && Shape() == old(Shape()).(count := 0)
      ensures forall j | 0 <= j < buf.Length ::
                buf[j] == if Between(old(head), old(tail), j) then Nil else old(buf[j])
    {
      hide And, IsPow2;
      var modBits := buf.Length - 1;
      var h := head;
      while h != tail
        invariant 0 <= h && (h < buf.Length || h == tail)
        invariant h == head || Between(head, tail, h) || h == tail
        invariant forall j | 0 <= j < buf.Length :: buf[j] == if Between(head, h, j) then Nil else old(buf[j])
        modifies buf
        decreases if h <= tail then tail - h else buf.Length - h + tail
      {
        buf[h] := Nil;
        MaskWraps(h + 1, buf.Length);
        h := And(h + 1, modBits);
      }
      head, tail, count := 0, 0, 0;
    }

    method SetMinCapacity(minCapacityExp: nat)
      requires Valid()
      modifies this`minCap
      ensures Valid() && Contents() == old(Contents())
      ensures minCap == if 4 < minCapacityExp < 63 then Pow2(minCapacityExp) else 16
    {
      assert Pow2(4) == 16;
      if minCapacityExp > 4 {
        PowMonotone(4, minCapacityExp);
      } else if minCapacityExp < 4 {
        PowMonotone(minCapacityExp, 4);
      }
      if ShiftOne(minCapacityExp) > MIN_CAPACITY {
        minCap := ShiftOne(minCapacityExp);
      } else {
        minCap := MIN_CAPACITY;
      }
    }

    /** One round of Rotate's loop for n < 0. */
    method MoveLastToFront()
      requires Valid() && 1 <= count < buf.Length
      modifies this`head, this`tail, buf
      ensures Valid() && Contents() == [old(Contents())[count - 1]] + old(Contents())[..count - 1]
    {
      hide View, And, IsPow2;
      BackToFront(buf[..], head, count, Nil);
      MaskWraps(head - 1, buf.Length);
      MaskWraps(tail - 1, buf.Length);
      head := And(head - 1, buf.Length - 1);
      tail := And(tail - 1, buf.Length - 1);
      buf[head] := buf[tail];
      buf[tail] := Nil;
    }

    /** One round of Rotate's loop for n > 0. */
    method MoveFirstToBack()
      requires Valid() && 1 <= count < buf.Length
      modifies this`head, this`tail, buf
      ensures Valid() && Contents() == old(Contents())[1..] + [old(Contents())[0]]
    {
      hide View, And, IsPow2;
      FrontToBack(buf[..], head, count, Nil);
      MaskWraps(head + 1, buf.Length);
      MaskWraps(tail + 1, buf.Length);
      buf[tail] := buf[head];
      buf[head] := Nil;
      head := And(head + 1, buf.Length - 1);
      tail := And(tail + 1, buf.Length - 1);
    }

    /** Rotate on a full buffer. */
    method MoveIndexes(k: int)
      requires Valid() && head == tail && 1 < count && -count < k < count
      modifies this`head, this`tail
      ensures Valid() && Contents() == Rotated(old(Contents()), k)
    {
      hide View, And, IsPow2, Rotated;
      FullRotation(buf[..], head, k);
      MaskWraps(head + k, buf.Length);
      MaskWraps(tail + k, buf.Length);
      head := And(head + k, buf.Length - 1);
      tail := And(tail + k, buf.Length - 1);
    }

    /** The loop for a negative number of steps. */
    method MoveBackToFront(k: int)
      requires Valid() && 1 < count < buf.Length && k < 0
      modifies this`head, this`tail, buf
      ensures Valid() && Contents() == Rotated(old(Contents()), k)
    {
      hide View, And, IsPow2, Rotated;
      ghost var s := Contents();
      RotateTrivially(s, 0);
      var todo := k;
      while todo < 0
        invariant todo <= 0 && Valid() && 1 < count < buf.Length && Contents() == Rotated(s, k - todo)
        decreases -todo
      {
        RotateOneMore(s, k - todo - 1);
        MoveLastToFront();
        todo := todo + 1;
      }
    }

    /** The loop for a positive number of steps. */
    method MoveFrontToBack(k: int)
      requires Valid() && 1 < count < buf.Length && k > 0
      modifies this`head, this`tail, buf
      ensures Valid() && Contents() == Rotated(old(Contents()), k)
    {
      hide View, And, IsPow2, Rotated;
      ghost var s := Contents();
      RotateTrivially(s, 0);
      var todo := k;
      while todo > 0
        invariant todo >= 0 && Valid() && 1 < count < buf.Length && Contents() == Rotated(s, k - todo)
      {
        RotateOneMore(s, k - todo);
        MoveFirstToBack();
        todo := todo - 1;
      }
    }

    /** The rotation of the contents, for every n, in the same buffer. */
    method Rotate(n: int)
      requires Valid()
      modifies this`head, this`tail, buf
      ensures Valid() && Contents() == Rotated(old(Contents()), n)
    {
      hide View, And, IsPow2, Rem, Rotated;
      ghost var s := Contents();
      RotateTrivially(s, n);
      if count <= 1 {
        return;
      }
      RemMod(n, count);
      var k := Rem(n, count);
      if k == 0 {
        return;
      }
      // If there is no empty slot, only the indexes move.
      if head == tail {
        MoveIndexes(k);
        return;
      }
      if k < 0 {
        MoveBackToFront(k);
      } else {
        MoveFrontToBack(k);
      }
    }
  }

  // ------------------------------------------------------------------- runs

  datatype DequeOp<+T> = OpPushBack(x: Any<T>) | OpPushFront(x: Any<T>) | OpPopFront | OpPopBack

  function Kind<T>(op: DequeOp<T>): Op { if op.OpPushBack? || op.OpPushFront? then Push else Pop }

  function Kinds<T>(ops: seq<DequeOp<T>>): (r: seq<Op>)
    ensures |r| == |ops|
  {
    if ops == [] then [] else [Kind(ops[0])] + Kinds(ops[1..])
  }

  /** The operation on a plain sequence. */
  function SeqStep<T>(s: seq<Any<T>>, op: DequeOp<T>): seq<Any<T>> {
    match op
    case OpPushBack(x) => s + [x]
    case OpPushFront(x) => [x] + s
    case OpPopFront => if s == [] then s else s[1..]
    case OpPopBack => if s == [] then s else s[..|s| - 1]
  }

  function SeqResult<T>(s: seq<Any<T>>, op: DequeOp<T>): Option<Any<T>> {
    match op
    case OpPopFront => if s == [] then None else Some(s[0])
    case OpPopBack => if s == [] then None else Some(s[|s| - 1])
    case _ => None
  }

  function SeqRun<T>(s: seq<Any<T>>, ops: seq<DequeOp<T>>): seq<Any<T>>
    decreases |ops|
  {
    if ops == [] then s else SeqRun(SeqStep(s, ops[0]), ops[1..])
  }

  function SeqResults<T>(s: seq<Any<T>>, ops: seq<DequeOp<T>>): seq<Option<Any<T>>>
    decreases |ops|
  {
    if ops == [] then [] else [SeqResult(s, ops[0])] + SeqResults(SeqStep(s, ops[0]), ops[1..])
  }

  method RunOne<T>(q: Deque<T>, op: DequeOp<T>) returns (r: Option<Any<T>>)
    requires q.Valid()
    modifies q, q.buf
    ensures q.Valid() && (q.buf == old(q.buf) || fresh(q.buf))
    ensures q.Contents() == SeqStep(old(q.Contents()), op) && r == SeqResult(old(q.Contents()), op)
    ensures q.Shape() == Step(old(q.Shape()), Kind(op)) && q.copied == old(q.copied) + Cost(old(q.Shape()), Kind(op))
  {
    r := None;
    match op
    case OpPushBack(x) => q.PushBack(x);
    case OpPushFront(x) => q.PushFront(x);
    case OpPopFront => r := q.PopFront();
    case OpPopBack => r := q.PopBack();
  }

  /**
   Any run of pushes and pops gives what the same run on a plain sequence gives,
   and its resizes copy at most two elements an operation, on top of the
   starting shape's potential.
   */
  method RunAll<T>(q: Deque<T>, ops: seq<DequeOp<T>>) returns (out: seq<Option<Any<T>>>)
    requires q.Valid()
    modifies q, q.buf
    ensures q.Valid() && (q.buf == old(q.buf) || fresh(q.buf))
    ensures q.Contents() == SeqRun(old(q.Contents()), ops) && out == SeqResults(old(q.Contents()), ops)
    ensures q.Shape() == After(old(q.Shape()), Kinds(ops))
    ensures q.copied <= old(q.copied) + 2 * |ops| + Potential(old(q.Shape()))
    ensures Snug(old(q.Shape())) ==> Snug(q.Shape())
    decreases |ops|
  {
    AmortisedCost(q.Shape(), Kinds(ops));
    if Snug(q.Shape()) {
      RunKeepsSnug(q.Shape(), Kinds(ops));
    }
    hide Ok, Snug, Potential;
    out := RunExact(q, ops);
  }

  method RunExact<T>(q: Deque<T>, ops: seq<DequeOp<T>>) returns (out: seq<Option<Any<T>>>)
    requires q.Valid()
    modifies q, q.buf
    ensures q.Valid() && (q.buf == old(q.buf) || fresh(q.buf))
    ensures q.Contents() == SeqRun(old(q.Contents()), ops) && out == SeqResults(old(q.Contents()), ops)
    ensures q.Shape() == After(old(q.Shape()), Kinds(ops))
    ensures q.copied == old(q.copied) + Total(old(q.Shape()), Kinds(ops))
    decreases |ops|
  {
    if ops == [] {
      return [];
    }
    var r := RunOne(q, ops[0]);
    var rest := RunExact(q, ops[1..]);
    out := [r] + rest;
  }
}
