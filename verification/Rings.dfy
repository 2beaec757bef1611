/**
 A buffer read as a ring: `count` elements from `head` on, wrapping round at the
 end of the buffer.  Shared by the ring queue of gpool and the deque of util/mem.
 */
module Rings {
  import opened Bits

  ghost function View<T>(s: seq<T>, head: nat, count: nat): (v: seq<T>)
    requires head <= |s| && count <= |s|
    ensures |v| == count
  {
    if head + count <= |s| then s[head..head + count] else s[head..] + s[..head + count - |s|]
  }

  /** The slot of element i. */
  function Slot(n: int, head: int, i: int): int { if head + i < n then head + i else head + i - n }

  /** The slot of element i is head + i modulo the length of the buffer. */
  lemma SlotIsModulus(n: int, head: int, i: int)
    requires 0 <= head < n && 0 <= i <= n
    ensures Slot(n, head, i) == (head + i) % n
  {
    if head + i < n {
      DivModUnique(head + i, n, 0, head + i);
    } else {
      DivModUnique(head + i, n, 1, head + i - n);
    }
  }

  lemma Append<T>(s: seq<T>, head: nat, count: nat, x: T)
    requires head < |s| && count < |s|
    ensures var t := Slot(|s|, head, count); View(s[t := x], head, count + 1) == View(s, head, count) + [x]
  {
  }

  lemma Prepend<T>(s: seq<T>, head: nat, count: nat, x: T)
    requires head < |s| && count < |s|
    ensures var h := if head == 0 then |s| - 1 else head - 1; View(s[h := x], h, count + 1) == [x] + View(s, head, count)
  {
  }

  lemma DropFirst<T>(s: seq<T>, head: nat, count: nat, x: T)
    requires head < |s| && 0 < count <= |s|
    ensures View(s, head, count)[0] == s[head]
    ensures View(s[head := x], Slot(|s|, head, 1), count - 1) == View(s, head, count)[1..]
  {
  }

  lemma DropLast<T>(s: seq<T>, head: nat, count: nat, x: T)
    requires head < |s| && 0 < count <= |s|
    ensures var t := Slot(|s|, head, count - 1);
            View(s, head, count)[count - 1] == s[t] && View(s[t := x], head, count - 1) == View(s, head, count)[..count - 1]
  {
  }

  lemma SetAt<T>(s: seq<T>, head: nat, count: nat, i: nat, x: T)
    requires head < |s| && i < count <= |s|
    ensures var t := Slot(|s|, head, i); View(s[t := x], head, count) == View(s, head, count)[i := x]
  {
  }
}
