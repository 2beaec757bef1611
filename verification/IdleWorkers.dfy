/**
 The two idle-worker containers of gpool: the stack with binary-search expiry
 (gpool/work_stack.go) and the ring queue (gpool/worker_loop_queue.go).
 Both are ordered by insertion, oldest first; the ring hands out the oldest
 worker, the stack the newest, and both expire a prefix.
 */
module IdleWorkers {
  import opened Rings
  import opened Wrappers

  /** A goWorker as the containers see it; recycleTime does not change while it is idle. */
  datatype GoWorker = GoWorker(id: nat, recycleTime: int)

  // -------------------------------------------------- what expiry promises

  predicate Old(w: GoWorker, expiryTime: int) { !(expiryTime < w.recycleTime) }

  ghost predicate Sorted(s: seq<GoWorker>) {
    forall i, j | 0 <= i < j < |s| :: s[i].recycleTime <= s[j].recycleTime
  }

  /** No expired worker stands behind one that is still fresh. */
  ghost predicate Partitioned(s: seq<GoWorker>, t: int) {
    forall i, j | 0 <= i < j < |s| :: Old(s[j], t) ==> Old(s[i], t)
  }

  /** The first k workers are exactly the expired ones. */
  ghost predicate ExactSplit(s: seq<GoWorker>, t: int, k: int) {
    0 <= k <= |s| && forall i | 0 <= i < |s| :: i < k <==> Old(s[i], t)
  }

  /** Position k has an expired worker just before it and a fresh one just behind. */
  ghost predicate Boundary(s: seq<GoWorker>, t: int, k: int) {
    0 <= k <= |s| && (k > 0 ==> Old(s[k - 1], t)) && (k < |s| ==> !Old(s[k], t))
  }

  /** A boundary is an exact split if and only if the content is partitioned at that time. */
  lemma ExactIffPartitioned(s: seq<GoWorker>, t: int, k: int)
    requires Boundary(s, t, k)
    ensures ExactSplit(s, t, k) <==> Partitioned(s, t)
  {
    if Partitioned(s, t) {
      forall i | 0 <= i < |s| ensures i < k <==> Old(s[i], t) {
        if i < k - 1 {
          assert Old(s[k - 1], t);
        } else if i > k {
          assert !Old(s[k], t);
        }
      }
    }
  }

  // ----------------------------------------------------------- the searches

  /** The binary search of workerStack over positions l..r. */
  function Search(s: seq<GoWorker>, l: int, r: int, t: int): (res: int)
    requires 0 <= l <= r + 1 <= |s|
    decreases r + 1 - l
  {
    if l <= r then
      var mid := (l + r) / 2;
      if t < s[mid].recycleTime then Search(s, l, mid - 1, t) else Search(s, mid + 1, r, t)
    else r
  }

  lemma {:induction false} SearchFindsBoundary(s: seq<GoWorker>, l: int, r: int, t: int)
    requires 0 <= l <= r + 1 <= |s|
    requires (l > 0 ==> Old(s[l - 1], t)) && (r + 1 < |s| ==> !Old(s[r + 1], t))
    ensures l - 1 <= Search(s, l, r, t) <= r && Boundary(s, t, Search(s, l, r, t) + 1)
    decreases r + 1 - l
  {
    if l <= r {
      var mid := (l + r) / 2;
      assert l <= mid <= r;
      if t < s[mid].recycleTime {
        SearchFindsBoundary(s, l, mid - 1, t);
      } else {
        SearchFindsBoundary(s, mid + 1, r, t);
      }
    }
  }

  /** Of at most two workers the search takes none that is fresh. */
  lemma TwoSearch(s: seq<GoWorker>, t: int)
    requires |s| <= 2
    ensures forall i | 0 <= i <= Search(s, 0, |s| - 1, t) && i < |s| :: Old(s[i], t)
  {
    if |s| == 1 {
      assert Search(s, 0, 0, t) == if t < s[0].recycleTime then -1 else 0;
    } else if |s| == 2 {
      assert Search(s, 1, 1, t) == if t < s[1].recycleTime then 0 else 1;
      assert Search(s, 0, 1, t) == if t < s[0].recycleTime then -1 else Search(s, 1, 1, t);
    }
  }

  /** How many workers the ring scan takes: the longest expired prefix. */
  function Scan(s: seq<GoWorker>, t: int): nat {
    if s == [] || t < s[0].recycleTime then 0 else 1 + Scan(s[1..], t)
  }

  lemma {:induction false} ScanFindsBoundary(s: seq<GoWorker>, t: int)
    ensures Boundary(s, t, Scan(s, t))
    ensures forall i | 0 <= i < Scan(s, t) :: Old(s[i], t)
  {
    if s != [] && !(t < s[0].recycleTime) {
      ScanFindsBoundary(s[1..], t);
      forall i | 0 <= i < Scan(s, t) ensures Old(s[i], t) {
        assert i > 0 ==> s[i] == s[1..][i - 1];
      }
    }
  }

  /** On the same sorted content the stack and the ring expire the same workers: exactly the old ones. */
  lemma StackAndRingAgree(s: seq<GoWorker>, t: int)
    requires Sorted(s)
    ensures Search(s, 0, |s| - 1, t) + 1 == Scan(s, t)
    ensures ExactSplit(s, t, Scan(s, t))
    ensures forall i | 0 <= i < |s| :: i < Scan(s, t) <==> s[i].recycleTime <= t
  {
    SearchFindsBoundary(s, 0, |s| - 1, t);
    ScanFindsBoundary(s, t);
    var k := Search(s, 0, |s| - 1, t) + 1;
    ExactIffPartitioned(s, t, k);
    ExactIffPartitioned(s, t, Scan(s, t));
  }

  /** Expiry is exact for the stack, and for the ring, if and only if the content is partitioned. */
  lemma ExpiryExactIffPartitioned(s: seq<GoWorker>, t: int)
    ensures ExactSplit(s, t, Search(s, 0, |s| - 1, t) + 1) <==> Partitioned(s, t)
    ensures ExactSplit(s, t, Scan(s, t)) <==> Partitioned(s, t)
  {
    SearchFindsBoundary(s, 0, |s| - 1, t);
    ScanFindsBoundary(s, t);
    ExactIffPartitioned(s, t, Search(s, 0, |s| - 1, t) + 1);
    ExactIffPartitioned(s, t, Scan(s, t));
  }

  /** Sorted content is content that is partitioned at every time. */
  lemma SortedIffPartitioned(s: seq<GoWorker>)
    ensures Sorted(s) <==> forall t :: Partitioned(s, t)
  {
    if forall t :: Partitioned(s, t) {
      forall i, j | 0 <= i < j < |s| ensures s[i].recycleTime <= s[j].recycleTime {
        assert Partitioned(s, s[j].recycleTime);
        assert Old(s[j], s[j].recycleTime);
      }
    }
  }

  /** A sorted container stays sorted when a worker is added, if and only if that is not older than the last. */
  lemma AddedSortedIff(s: seq<GoWorker>, w: GoWorker)
    requires Sorted(s)
    ensures Sorted(s + [w]) <==> s == [] || s[|s| - 1].recycleTime <= w.recycleTime
  {
    var r := s + [w];
    if s != [] {
      assert r[|s| - 1] == s[|s| - 1] && r[|s|] == w;
    }
  }

  // -------------------------------------------------------------- the stack

  class WorkerStack {
    var items: seq<GoWorker>

    constructor ()
      ensures items == []
    {
      items := [];
    }

    method Len() returns (n: nat)
      ensures n == |items|
    {
      n := |items|;
    }

    method Insert(worker: GoWorker)
      modifies this`items
      ensures items == old(items) + [worker]
      ensures Sorted(old(items)) ==>
                (Sorted(items) <==> old(items) == [] || old(items)[|old(items)| - 1].recycleTime <= worker.recycleTime)
    {
      if Sorted(items) {
        AddedSortedIff(items, worker);
      }
      items := items + [worker];
    }

    method Detach() returns (w: Option<GoWorker>)
      modifies this`items
      ensures old(items) == [] ==> w == None && items == []
      ensures old(items) != [] ==> w.Some? && items + [w.value] == old(items)
    {
      var l := |items|;
      if l == 0 {
        return None;
      }
      w := Some(items[l - 1]);
      items := items[..l - 1];
    }

    method BinarySearch(l: int, r: int, expiryTime: int) returns (res: int)
      requires 0 <= l <= r + 1 <= |items|
      ensures res == Search(items, l, r, expiryTime)
    {
      var lo, hi := l, r;
      while lo <= hi
        invariant 0 <= lo <= hi + 1 <= |items|
        invariant Search(items, lo, hi, expiryTime) == Search(items, l, r, expiryTime)
        decreases hi + 1 - lo
      {
        var mid := (lo + hi) / 2;
        if expiryTime < items[mid].recycleTime {
          hi := mid - 1;
        } else {
          lo := mid + 1;
        }
      }
      res := hi;
    }

    /** Always splits the content, without loss, into what is returned and what stays. */
    method RetrieveExpiry(now: int, duration: int) returns (out: seq<GoWorker>)
      modifies this`items
      ensures out + items == old(items)
      ensures |out| == Search(old(items), 0, |old(items)| - 1, now - duration) + 1
      ensures Boundary(old(items), now - duration, |out|)
    {
      hide Search, Boundary, Old;
      SearchFindsBoundary(items, 0, |items| - 1, now - duration);
      var n := |items|;
      if n == 0 {
        return [];
      }
      var expiryTime := now - duration;
      var index := BinarySearch(0, n - 1, expiryTime);
      out := [];
      if index != -1 {
        out := out + items[..index + 1];
        items := items[index + 1..];
      }
    }

    /** reset tells every idle worker to stop, oldest first, and empties the stack. */
    method Reset() returns (stopped: seq<GoWorker>)
      modifies this`items
      ensures stopped == old(items) && items == []
    {
      stopped := [];
      for i := 0 to |items|
        invariant stopped == items[..i] && items == old(items)
      {
        stopped := stopped + [items[i]];
      }
      items := [];
    }
  }

  // --------------------------------------------------------------- the ring

  type Slots = seq<Option<GoWorker>>

  ghost predicate InUse(n: nat, head: nat, count: nat, j: nat) {
    if head + count <= n then head <= j < head + count else j >= head || j < head + count - n
  }

  /** Exactly the slots in use hold a worker. */
  ghost predicate Tidy(s: Slots, head: nat, count: nat) {
    head <= |s| && count <= |s| && forall j: nat | j < |s| :: s[j].Some? <==> InUse(|s|, head, count, j)
  }

  /** The workers in the slots in use, oldest first. */
  ghost function Ring(s: Slots, head: nat, count: nat): (ws: seq<GoWorker>)
    requires Tidy(s, head, count)
    ensures |ws| == count && forall i | 0 <= i < count :: View(s, head, count)[i] == Some(ws[i])
  {
    var v := View(s, head, count);
    seq(count, i requires 0 <= i < count => assert v[i].Some?; v[i].value)
  }

  lemma AppendSlot(s: Slots, head: nat, count: nat, w: GoWorker)
    requires head < |s| && count < |s| && Tidy(s, head, count)
    ensures var s' := s[Slot(|s|, head, count) := Some(w)];
            Tidy(s', head, count + 1) && Ring(s', head, count + 1) == Ring(s, head, count) + [w]
  {
    var s' := s[Slot(|s|, head, count) := Some(w)];
    Append(s, head, count, Some(w));
    assert Tidy(s', head, count + 1);
    hide View, Ring, Tidy;
    forall i | 0 <= i < count + 1 ensures Some(Ring(s', head, count + 1)[i]) == (View(s, head, count) + [Some(w)])[i] {
    }
  }

  lemma RemoveSlot(s: Slots, head: nat, count: nat)
    requires head < |s| && 0 < count && Tidy(s, head, count)
    ensures var s', h' := s[head := None], Slot(|s|, head, 1);
            && s[head].Some? && Tidy(s', h', count - 1)
            && Ring(s, head, count) == [s[head].value] + Ring(s', h', count - 1)
  {
    var s', h' := s[head := None], Slot(|s|, head, 1);
    DropFirst(s, head, count, None);
    assert Tidy(s', h', count - 1);
    hide View, Ring, Tidy;
    forall i | 0 <= i < count - 1 ensures Some(Ring(s', h', count - 1)[i]) == View(s, head, count)[1..][i] {
    }
  }

  datatype InsertError = QueueIsFull | QueueIsReleased

  class LoopQueue {
    var items: array<Option<GoWorker>>
    var head: nat
    var tail: nat
    var size: nat
    var isFull: bool

    ghost function Count(): int
      reads this
    {
      if tail > head || (tail == head && !isFull) then tail - head else size - head + tail
    }

    /** isFull tells a full ring from an empty one when head meets tail; unused slots are nil. */
    ghost predicate Valid()
      reads this, items
    {
      && items.Length == size
      && (if size == 0 then head == tail == 0 && !isFull else head < size && tail < size)
      && (isFull ==> head == tail)
      && Tidy(items[..], head, Count())
    }

    /** The workers in the ring, oldest first. */
    ghost function Contents(): (s: seq<GoWorker>)
      requires Valid()
      reads this, items
    {
      Ring(items[..], head, Count())
    }

    constructor (n: nat)
      ensures Valid() && size == n && Contents() == [] && fresh(items)
    {
      items := new Option<GoWorker>[n](_ => None);
      head, tail, size, isFull := 0, 0, n, false;
    }

    method Len() returns (n: int)
      requires Valid()
      ensures n == |Contents()|
    {
      if size == 0 {
        return 0;
      }
      if head == tail {
        if isFull {
          return size;
        }
        return 0;
      }
      if tail > head {
        return tail - head;
      }
      return size - head + tail;
    }

    predicate IsEmpty()
      reads this
    {
      head == tail && !isFull
    }

    method Insert(worker: GoWorker) returns (err: Option<InsertError>)
      requires Valid()
      modifies this`tail, this`isFull, items
      ensures Valid()
      ensures err == (if size == 0 then Some(QueueIsReleased)
                      else if |old(Contents())| == size then Some(QueueIsFull) else None)
      ensures Contents() == if err.None? then old(Contents()) + [worker] else old(Contents())
    {
      hide Tidy, Ring;
      if size == 0 {
        return Some(QueueIsReleased);
      }
      if isFull {
        return Some(QueueIsFull);
      }
      AppendSlot(items[..], head, Count(), worker);
      items[tail] := Some(worker);
      tail := tail + 1;
      if tail == size {
        tail := 0;
      }
      if tail == head {
        isFull := true;
      }
      return None;
    }

    /** Takes the oldest worker out, as detach does and as each round of the expiry loop does. */
    method Detach() returns (w: Option<GoWorker>)
      requires Valid()
      modifies this`head, this`isFull, items
      ensures Valid()
      ensures old(Contents()) == [] ==> w == None && Contents() == []
      ensures old(Contents()) != [] ==> w.Some? && [w.value] + Contents() == old(Contents())
    {
      hide Tidy, Ring;
      if IsEmpty() {
        return None;
      }
      RemoveSlot(items[..], head, Count());
      w := items[head];
      items[head] := None;
      head := head + 1;
      if head == size {
        head := 0;
      }
      isFull := false;
    }

    lemma HeadIsOldest()
      requires Valid()
      ensures IsEmpty() <==> Contents() == []
      ensures !IsEmpty() ==> head < items.Length && items[head] == Some(Contents()[0])
    {
    }

    /** Takes the longest expired prefix; on partitioned content exactly the expired workers. */
    method RetrieveExpiry(now: int, duration: int) returns (out: seq<GoWorker>)
      requires Valid()
      modifies this, items
      ensures Valid() && items == old(items)
      ensures out + Contents() == old(Contents())
      ensures |out| == Scan(old(Contents()), now - duration)
    {
      hide Valid, Contents, IsEmpty;
      out := [];
      HeadIsOldest();
      if IsEmpty() {
        return;
      }
      var expiryTime := now - duration;
      while !IsEmpty()
        invariant Valid() && items == old(items)
        invariant out + Contents() == old(Contents())
        invariant Scan(old(Contents()), expiryTime) == |out| + Scan(Contents(), expiryTime)
        decreases |Contents()|
      {
        HeadIsOldest();
        ghost var left := Contents();
        if expiryTime < items[head].value.recycleTime {
          break;
        }
        var w := Detach();
        out := out + [w.value];
        assert left[1..] == Contents();
      }
      HeadIsOldest();
    }
  }
}
