/**
 Capacity and copying cost of the deque in util/mem/queue.go: how growIfFull and
 shrinkIfExcess change the buffer, and what a run of pushes and pops costs.
 */
module DequeShape {
  import opened Bits

  const MIN_CAPACITY := 16

  /** Elements held, buffer length and the smallest length a shrink may reach. */
  datatype Shape = Shape(count: int, cap: int, minCap: int)

  /** A zero minCap is that of a zero-valued Deque, which has no buffer yet. */
  ghost predicate Ok(sh: Shape) {
    && 0 <= sh.count <= sh.cap
    && (sh.cap == 0 || (IsPow2(sh.cap) && sh.cap >= MIN_CAPACITY))
    && (if sh.minCap == 0 then sh.cap == 0 else IsPow2(sh.minCap) && sh.minCap >= MIN_CAPACITY)
  }

  function Grown(sh: Shape): Shape {
    if sh.count != sh.cap then sh
    else if sh.cap == 0 then
      var m := if sh.minCap == 0 then MIN_CAPACITY else sh.minCap;
      sh.(cap := m, minCap := m)
    else sh.(cap := 2 * sh.count)
  }

  function GrowCost(sh: Shape): int { if sh.count == sh.cap && sh.cap != 0 then sh.count else 0 }

  predicate Excess(sh: Shape) { sh.cap > sh.minCap && 4 * sh.count == sh.cap }

  function Shrunk(sh: Shape): Shape { if Excess(sh) then sh.(cap := 2 * sh.count) else sh }

  function ShrinkCost(sh: Shape): int { if Excess(sh) then sh.count else 0 }

  datatype Op = Push | Pop

  /** A pop of an empty deque panics and changes nothing. */
  function Step(sh: Shape, op: Op): Shape {
    match op
    case Push => var g := Grown(sh); g.(count := g.count + 1)
    case Pop => if sh.count <= 0 then sh else Shrunk(sh.(count := sh.count - 1))
  }

  function Cost(sh: Shape, op: Op): int {
    match op
    case Push => GrowCost(sh)
    case Pop => if sh.count <= 0 then 0 else ShrinkCost(sh.(count := sh.count - 1))
  }

  function After(sh: Shape, ops: seq<Op>): Shape
    decreases |ops|
  {
    if ops == [] then sh else After(Step(sh, ops[0]), ops[1..])
  }

  /** Elements copied by all the resizes of a run. */
  function Total(sh: Shape, ops: seq<Op>): int
    decreases |ops|
  {
    if ops == [] then 0 else Cost(sh, ops[0]) + Total(Step(sh, ops[0]), ops[1..])
  }

  // ------------------------------------------------------- powers of two

  lemma {:induction false} PowMonotone(j: nat, k: nat)
    requires j < k
    ensures 2 * Pow2(j) <= Pow2(k)
  {
    if j < k - 1 {
      PowMonotone(j, k - 1);
    }
  }

  lemma PowGap(a: int, b: int)
    requires IsPow2(a) && IsPow2(b) && a > b
    ensures a >= 2 * b
  {
    var j: nat, k: nat :| a == Pow2(j) && b == Pow2(k);
    if j <= k {
      if j < k {
        PowMonotone(j, k);
      }
    } else {
      PowMonotone(k, j);
    }
  }

  /** Doubling and halving keep a power of two, and one of at least 16 is a multiple of 16. */
  lemma PowFacts(a: int)
    requires IsPow2(a)
    ensures IsPow2(2 * a)
    ensures a >= 16 ==> a % 16 == 0 && IsPow2(a / 2)
  {
    var k: nat :| a == Pow2(k);
    assert 2 * a == Pow2(k + 1);
    if a >= 16 {
      SixteenIsPow2();
      if k < 4 {
        PowMonotone(k, 4);
      }
      PowSteps(k);
      hide Pow2;
      DivModUnique(a, 2, Pow2(k - 1), 0);
      DivModUnique(a, 16, Pow2(k - 4), 0);
    }
  }

  lemma SixteenIsPow2()
    ensures Pow2(4) == 16 && IsPow2(MIN_CAPACITY)
  {
  }

  lemma PowSteps(k: nat)
    requires k >= 4
    ensures Pow2(k) == 2 * Pow2(k - 1) && Pow2(k) == 16 * Pow2(k - 4)
  {
    assert Pow2(k - 2) == 4 * Pow2(k - 4);
  }

  lemma StepKeepsOk(sh: Shape, op: Op)
    requires Ok(sh)
    ensures Ok(Step(sh, op))
  {
    hide IsPow2;
    SixteenIsPow2();
    if sh.cap != 0 {
      PowFacts(sh.cap);
      if sh.cap > sh.minCap {
        PowGap(sh.cap, sh.minCap);
      }
    }
  }

  lemma StepKeepsMinimum(sh: Shape, op: Op)
    requires Ok(sh)
    ensures Step(sh, op).minCap == if sh.minCap == 0 && op == Push then 16 else sh.minCap
    ensures sh.cap == 0 && op == Push ==> Step(sh, op).cap == Step(sh, op).minCap
    ensures sh.cap == 0 || sh.cap >= sh.minCap ==> Step(sh, op).cap == 0 || Step(sh, op).cap >= Step(sh, op).minCap
  {
    hide IsPow2;
    if sh.cap > sh.minCap && sh.cap != 0 {
      PowFacts(sh.cap);
      PowGapOrNone(sh.cap, sh.minCap);
    }
  }

  lemma PowGapOrNone(a: int, b: int)
    requires IsPow2(a) && a > b && (b == 0 || IsPow2(b))
    ensures a >= 2 * b
  {
    if b != 0 {
      PowGap(a, b);
    }
  }

  /** A minimum that has been set stays, and no buffer that has once reached it becomes shorter again. */
  lemma {:induction false} RunKeepsMinimum(sh: Shape, ops: seq<Op>)
    requires Ok(sh) && sh.minCap != 0 && (sh.cap == 0 || sh.cap >= sh.minCap)
    ensures After(sh, ops).minCap == sh.minCap
    ensures After(sh, ops).cap == 0 || After(sh, ops).cap >= sh.minCap
    decreases |ops|
  {
    if ops != [] {
      StepKeepsOk(sh, ops[0]);
      StepKeepsMinimum(sh, ops[0]);
      RunKeepsMinimum(Step(sh, ops[0]), ops[1..]);
    }
  }

  // ---------------------------------------------------------- amortised cost

  /** Work saved up: distance from half full, twice as much when filling up. */
  function Potential(sh: Shape): int {
    if 2 * sh.count > sh.cap then 2 * sh.count - sh.cap
    else if sh.cap > sh.minCap then sh.cap / 2 - sh.count
    else 0
  }

  lemma StepCost(sh: Shape, op: Op)
    requires Ok(sh)
    ensures Cost(sh, op) + Potential(Step(sh, op)) <= Potential(sh) + if op == Push then 2 else 1
  {
    if sh.cap != 0 {
      PowFacts(sh.cap);
    }
  }

  function Count(ops: seq<Op>, op: Op): nat {
    if ops == [] then 0 else Count(ops[1..], op) + if ops[0] == op then 1 else 0
  }

  /** Two copies a push and one a pop, on top of what the starting shape had saved up. */
  lemma {:induction false} AmortisedCost(sh: Shape, ops: seq<Op>)
    requires Ok(sh)
    ensures Total(sh, ops) + Potential(After(sh, ops)) <= Potential(sh) + 2 * Count(ops, Push) + Count(ops, Pop)
    ensures Ok(After(sh, ops)) && Potential(After(sh, ops)) >= 0
    ensures Count(ops, Push) + Count(ops, Pop) == |ops|
    decreases |ops|
  {
    if ops != [] {
      StepKeepsOk(sh, ops[0]);
      StepCost(sh, ops[0]);
      AmortisedCost(Step(sh, ops[0]), ops[1..]);
    }
  }

  /** From an empty deque: at most 2m copies, plus half the initial capacity when there is a buffer already. */
  lemma CostFromEmpty(sh: Shape, ops: seq<Op>)
    requires Ok(sh) && sh.count == 0
    ensures Total(sh, ops) <= 2 * |ops| + sh.cap / 2
    ensures sh.cap <= sh.minCap ==> Total(sh, ops) <= 2 * |ops|
  {
    AmortisedCost(sh, ops);
  }

  // ------------------------------------------------------- capacity in use

  /** No buffer, a buffer of the minimum length, or a longer one that is more than a quarter full. */
  ghost predicate Snug(sh: Shape) {
    sh.cap == 0 || sh.cap == sh.minCap || (sh.cap > sh.minCap && IsPow2(sh.cap) && sh.cap < 4 * sh.count)
  }

  /** A quarter of a power of two from 16 up is whole, and half of it is a power of two. */
  lemma Quarter(a: int) returns (q: int)
    requires IsPow2(a) && a >= 16
    ensures a == 4 * q && IsPow2(2 * q) && IsPow2(2 * a)
  {
    var k: nat :| a == Pow2(k);
    SixteenIsPow2();
    if k < 4 {
      PowMonotone(k, 4);
    }
    q := Pow2(k - 2);
    assert 2 * q == Pow2(k - 1) && a == 2 * Pow2(k - 1) && 2 * a == Pow2(k + 1);
  }

  lemma PushKeepsSnug(sh: Shape)
    requires Ok(sh) && Snug(sh)
    ensures Snug(Step(sh, Push))
  {
    hide IsPow2;
    if sh.cap != 0 {
      var q := Quarter(sh.cap);
    }
  }

  lemma PopKeepsSnug(sh: Shape)
    requires Ok(sh) && Snug(sh)
    ensures Snug(Step(sh, Pop))
  {
    hide IsPow2;
    if sh.cap > sh.minCap {
      var q := Quarter(sh.cap);
      PowGap(sh.cap, sh.minCap);
    }
  }

  lemma StepKeepsSnug(sh: Shape, op: Op)
    requires Ok(sh) && Snug(sh)
    ensures Snug(Step(sh, op))
  {
    match op
    case Push => PushKeepsSnug(sh);
    case Pop => PopKeepsSnug(sh);
  }

  lemma {:induction false} RunKeepsSnug(sh: Shape, ops: seq<Op>)
    requires Ok(sh) && Snug(sh)
    ensures Ok(After(sh, ops)) && Snug(After(sh, ops))
    decreases |ops|
  {
    if ops != [] {
      StepKeepsOk(sh, ops[0]);
      StepKeepsSnug(sh, ops[0]);
      RunKeepsSnug(Step(sh, ops[0]), ops[1..]);
    }
  }

  /** Started without a buffer, the capacity stays 0, the minimum, or a larger power of two below 4 * Len. */
  lemma UnallocatedStaysSnug(minCap: int, ops: seq<Op>)
    requires minCap == 0 || (IsPow2(minCap) && minCap >= MIN_CAPACITY)
    ensures Snug(After(Shape(0, 0, minCap), ops))
  {
    RunKeepsSnug(Shape(0, 0, minCap), ops);
  }
}
