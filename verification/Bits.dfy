/**
 Bitwise "and" of two's complement integers, and the two masks the repository
 uses it with: `x & (n - 1)` and `x & -n` for a power of two n.
 */
module Bits {

  function Pow2(k: nat): (p: nat)
    ensures p >= 1
  {
    if k == 0 then 1 else 2 * Pow2(k - 1)
  }

  ghost predicate IsPow2(n: int) { exists k: nat :: n == Pow2(k) }

  function Abs(x: int): nat { if x < 0 then -x else x }

  /** Bit by bit from the lowest; 0 and -1 are all zeros and all ones. */
  function And(x: int, y: int): int
    decreases Abs(x)
  {
    if x == 0 || y == 0 then 0
    else if x == -1 then y
    else if y == -1 then x
    else 2 * And(x / 2, y / 2) + (x % 2) * (y % 2)
  }

  /** Bit k of the two's complement form of x. */
  function Bit(x: int, k: nat): int
    decreases k
  {
    if k == 0 then x % 2 else Bit(x / 2, k - 1)
  }

  lemma {:induction false} BitOfConstant(k: nat)
    ensures Bit(0, k) == 0 && Bit(-1, k) == 1
  {
    if k > 0 {
      BitOfConstant(k - 1);
    }
  }

  /** And is the "and" of every bit. */
  lemma {:induction false} AndIsBitwise(x: int, y: int, k: nat)
    ensures Bit(And(x, y), k) == Bit(x, k) * Bit(y, k)
    decreases k
  {
    if x == 0 || y == 0 || x == -1 || y == -1 {
      BitOfConstant(k);
    } else {
      AndUnfold(x, y);
      hide And;
      LowBit(x, y, And(x / 2, y / 2));
      if k > 0 {
        AndIsBitwise(x / 2, y / 2, k - 1);
      }
    }
  }

  lemma LowBit(x: int, y: int, h: int)
    ensures var z := 2 * h + (x % 2) * (y % 2); z % 2 == (x % 2) * (y % 2) && z / 2 == h
  {
    assert (x % 2 == 0 || x % 2 == 1) && (y % 2 == 0 || y % 2 == 1);
  }

  lemma SmallMultiple(a: int, d: int)
    requires d > 0 && -d < a * d < d
    ensures a == 0
  {
  }

  lemma DivModUnique(x: int, d: int, q: int, r: int)
    requires d > 0 && x == q * d + r && 0 <= r < d
    ensures x / d == q && x % d == r
  {
    var q' := x / d;
    assert x == q' * d + x % d;
    assert (q - q') * d == q * d - q' * d;
    SmallMultiple(q - q', d);
  }

  lemma ModTwice(x: int, m: int)
    requires m > 0
    ensures x % (2 * m) == 2 * ((x / 2) % m) + x % 2
  {
    var h := x / 2;
    var q, r := h / m, h % m;
    assert h == q * m + r;
    assert x == 2 * h + x % 2;
    assert x == q * (2 * m) + (2 * r + x % 2);
    DivModUnique(x, 2 * m, q, 2 * r + x % 2);
  }

  lemma MinusOneMod(m: int)
    requires m > 0
    ensures -1 % m == m - 1
  {
    DivModUnique(-1, m, -1, m - 1);
  }

  lemma AndUnfold(x: int, y: int)
    requires x != 0 && x != -1 && y != 0 && y != -1
    ensures And(x, y) == 2 * And(x / 2, y / 2) + (x % 2) * (y % 2)
  {
  }

  lemma HalfMasks(m: int)
    ensures (2 * m - 1) / 2 == m - 1 && (2 * m - 1) % 2 == 1
    ensures (0 - 2 * m) / 2 == 0 - m && (0 - 2 * m) % 2 == 0
  {
  }

  /** x modulo m, under a name that keeps the division out of other proofs. */
  ghost function Residue(x: int, m: int): int
    requires m > 0
  {
    x % m
  }

  lemma RemTwice(x: int, m: int)
    requires m > 0
    ensures Residue(x, 2 * m) == 2 * Residue(x / 2, m) + x % 2
  {
    ModTwice(x, m);
  }

  lemma AndEven(x: int, m: int)
    requires m > 0 && x != 0 && x != -1
    ensures And(x, 0 - 2 * m) == 2 * And(x / 2, 0 - m)
  {
    AndUnfold(x, 0 - 2 * m);
    HalfMasks(m);
    hide And;
  }

  lemma EdgeResidue(x: int, m: int)
    requires m > 0 && (m == 1 || x == 0 || x == -1)
    ensures Residue(x, m) == if m == 1 || x == 0 then 0 else m - 1
  {
    if m == 1 {
      DivModUnique(x, 1, x, 0);
    } else if x == 0 {
      DivModUnique(0, m, 0, 0);
    } else {
      MinusOneMod(m);
    }
  }

  lemma AndHighBase(x: int, m: int)
    requires m > 0 && (m == 1 || x == 0 || x == -1)
    ensures And(x, 0 - m) == x - Residue(x, m)
  {
    hide Residue;
    EdgeResidue(x, m);
  }

  lemma {:induction false} AndHighRem(x: int, k: nat)
    ensures And(x, 0 - Pow2(k)) == x - Residue(x, Pow2(k))
    decreases k
  {
    hide Residue, And;
    if k == 0 || x == 0 || x == -1 {
      AndHighBase(x, Pow2(k));
    } else {
      var m: int := Pow2(k - 1);
      assert Pow2(k) == 2 * m;
      AndHighRem(x / 2, k - 1);
      AndEven(x, m);
      RemTwice(x, m);
    }
  }

  lemma AndOdd(x: int, m: int)
    requires m > 0 && x != 0 && x != -1
    ensures And(x, 2 * m - 1) == 2 * And(x / 2, m - 1) + x % 2
  {
    AndUnfold(x, 2 * m - 1);
    HalfMasks(m);
    hide And;
  }

  lemma {:induction false} AndLowRem(x: int, k: nat)
    ensures And(x, Pow2(k) - 1) == Residue(x, Pow2(k))
    decreases k
  {
    if k == 0 || x == 0 || x == -1 {
      hide Residue;
      EdgeResidue(x, Pow2(k));
    } else {
      hide Residue, And;
      var m: int := Pow2(k - 1);
      assert Pow2(k) == 2 * m;
      AndLowRem(x / 2, k - 1);
      AndOdd(x, m);
      RemTwice(x, m);
    }
  }

  /** x & (2^k - 1) is x mod 2^k, negative x included. */
  lemma AndLowMask(x: int, k: nat)
    ensures And(x, Pow2(k) - 1) == x % Pow2(k)
  {
    AndLowRem(x, k);
    hide And, Pow2;
  }

  /** x & -(2^k) is x rounded down to a multiple of 2^k. */
  lemma AndHighMask(x: int, k: nat)
    ensures And(x, 0 - Pow2(k)) == x - x % Pow2(k)
  {
    AndHighRem(x, k);
    hide And, Pow2;
  }

  lemma PowerMask(x: int, n: int)
    requires IsPow2(n)
    ensures And(x, n - 1) == x % n
  {
    var k: nat :| n == Pow2(k);
    AndLowMask(x, k);
  }

  lemma PowValues()
    ensures Pow2(2) == 4 && Pow2(8) == 256 && Pow2(9) == 512 && Pow2(16) == 65536
  {
    assert Pow2(4) == 4 * Pow2(2);
    assert Pow2(6) == 4 * Pow2(4);
    assert Pow2(8) == 4 * Pow2(6);
    assert Pow2(10) == 4 * Pow2(8);
    assert Pow2(12) == 4 * Pow2(10);
    assert Pow2(14) == 4 * Pow2(12);
    assert Pow2(16) == 4 * Pow2(14);
  }

  lemma LowMask(x: int, k: nat, n: int)
    requires n == Pow2(k)
    ensures And(x, n - 1) == x % n
  {
    AndLowMask(x, k);
  }

  lemma HighMask(x: int, k: nat, n: int)
    requires n == Pow2(k)
    ensures And(x, -n) == x - x % n
  {
    AndHighMask(x, k);
  }
}
