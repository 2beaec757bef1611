/**
 Names of rotated log files: `Name` and `Name.k` (log/newlog/output.go), with the
 number read back by strconv.Atoi and written by strconv.Itoa.
 */
module LogNames {
  import opened Bits
  import opened Wrappers

  predicate IsDigit(c: char) { '0' <= c <= '9' }

  predicate AllDigits(s: string) { forall i | 0 <= i < |s| :: IsDigit(s[i]) }

  function DigitChar(d: nat): (c: char)
    requires d < 10
  {
    (d + 48) as char
  }

  /** Decimal digits of a natural number. */
  function Digits(n: nat): (s: string)
    ensures |s| > 0 && AllDigits(s)
  {
    if n < 10 then [DigitChar(n)] else Digits(n / 10) + [DigitChar(n % 10)]
  }

  function Itoa(n: int): string { if n < 0 then "-" + Digits(-n) else Digits(n) }

  function Value(s: string): int
    requires AllDigits(s)
  {
    if s == [] then 0 else 10 * Value(s[..|s| - 1]) + (s[|s| - 1] as int - 48)
  }

  function Unsigned(s: string): Option<int> {
    if s != [] && AllDigits(s) then Some(Value(s)) else None
  }

  /** strconv.Atoi: an optional sign and at least one digit. */
  function Atoi(s: string): Option<int> {
    if s != [] && s[0] == '-' then
      var u := Unsigned(s[1..]);
      if u.Some? then Some(-u.value) else None
    else if s != [] && s[0] == '+' then Unsigned(s[1..])
    else Unsigned(s)
  }

  lemma {:induction false} ValueOfDigits(n: nat)
    ensures Value(Digits(n)) == n
  {
    if n >= 10 {
      ValueOfDigits(n / 10);
      assert Digits(n)[..|Digits(n)| - 1] == Digits(n / 10);
    }
  }

  lemma AtoiOfItoa(n: int)
    ensures Atoi(Itoa(n)) == Some(n)
  {
    if n < 0 {
      ValueOfDigits(-n);
      assert Itoa(n)[1..] == Digits(-n);
    } else {
      ValueOfDigits(n);
      assert IsDigit(Itoa(n)[0]);
    }
  }

  // --------------------------------------------------- digits by position

  function Pow10(i: nat): (p: nat)
    ensures p >= 1
  {
    if i == 0 then 1 else 10 * Pow10(i - 1)
  }

  function DigitOf(k: nat, i: nat): (d: nat)
    ensures d < 10
  {
    k / Pow10(i) % 10
  }

  /** i places from the end is the digit of weight 10^i. */
  predicate Shows(s: string, k: nat, i: nat) { i < |s| ==> s[|s| - 1 - i] as int == '0' as int + DigitOf(k, i) }

  /** The digits of k, perhaps behind zeros. */
  ghost predicate Spelled(s: string, k: nat) {
    && |s| > 0 && k < Pow10(|s|)
    && forall i: nat :: Shows(s, k, i)
  }

  /** Without zeros in front. */
  ghost predicate Numeral(s: string, k: nat) { Spelled(s, k) && (|s| > 1 ==> s[0] != '0') }

  lemma DigitUp(k: nat, i: nat)
    ensures DigitOf(k / 10, i) == DigitOf(k, i + 1) && DigitOf(k, 0) == k % 10
  {
    var p := Pow10(i);
    var y := k / 10;
    assert k == (y / p) * (10 * p) + (10 * (y % p) + k % 10) by {
      assert y == (y / p) * p + y % p;
    }
    DivModUnique(k, 10 * p, y / p, 10 * (y % p) + k % 10);
  }

  lemma SpelledEnd(s: string, k: nat)
    requires |s| > 0
    ensures Spelled(s, k) <==>
            s[|s| - 1] as int == '0' as int + k % 10 && if |s| == 1 then k < 10 else Spelled(s[..|s| - 1], k / 10)
  {
    var t := s[..|s| - 1];
    assert Pow10(|s|) == 10 * Pow10(|t|) && Pow10(0) == 1;
    DigitUp(k, 0);
    hide Pow10;
    forall i: nat ensures Shows(t, k / 10, i) <==> i + 1 < |s| ==> Shows(s, k, i + 1) {
      DigitUp(k, i);
    }
    hide DigitOf;
    if Spelled(s, k) {
      assert Shows(s, k, 0);
      forall i: nat ensures Shows(t, k / 10, i) {
        assert Shows(s, k, i + 1);
      }
    } else if |s| > 1 && Spelled(t, k / 10) && s[|s| - 1] as int == '0' as int + k % 10 {
      forall i: nat ensures Shows(s, k, i) {
        assert i > 0 ==> Shows(t, k / 10, i - 1);
      }
    }
  }

  /** strconv.Itoa writes the numeral. */
  lemma {:induction false} DigitsAreNumeral(k: nat)
    ensures Numeral(Digits(k), k) && (k > 0 ==> Digits(k)[0] != '0')
  {
    var s := Digits(k);
    SpelledEnd(s, k);
    if k >= 10 {
      hide Spelled;
      DigitsAreNumeral(k / 10);
      assert s[..|s| - 1] == Digits(k / 10);
    }
  }

  /** A string of digits spells one number: the one strconv.Atoi reads. */
  lemma {:induction false} SpelledIff(s: string, k: nat)
    ensures Spelled(s, k) <==> |s| > 0 && AllDigits(s) && Value(s) == k
    decreases |s|
  {
    if |s| > 0 {
      SpelledEnd(s, k);
      DigitsEnd(s);
      hide Spelled, AllDigits;
      if |s| > 1 {
        SpelledIff(s[..|s| - 1], k / 10);
      }
    }
  }

  lemma DigitsEnd(s: string)
    requires |s| > 0
    ensures AllDigits(s) <==> IsDigit(s[|s| - 1]) && AllDigits(s[..|s| - 1])
  {
    assert s == s[..|s| - 1] + [s[|s| - 1]];
  }

  lemma {:induction false} ValueIsNat(s: string)
    requires AllDigits(s)
    ensures Value(s) >= 0
  {
    if s != [] {
      ValueIsNat(s[..|s| - 1]);
    }
  }

  /** Digits without zeros in front are what strconv.Itoa writes. */
  lemma {:induction false} DigitsOfValue(s: string)
    requires |s| > 0 && AllDigits(s) && (|s| > 1 ==> s[0] != '0')
    ensures Value(s) >= 0 && Digits(Value(s)) == s && (s[0] != '0' ==> Value(s) > 0)
  {
    var t, d := s[..|s| - 1], s[|s| - 1] as int - 48;
    ValueIsNat(t);
    assert Value(s) == 10 * Value(t) + d;
    if |s| > 1 {
      DigitsOfValue(t);
      assert Value(s) / 10 == Value(t) && Value(s) % 10 == d;
      assert DigitChar(d) == s[|s| - 1];
      assert s == t + [s[|s| - 1]];
    } else {
      assert Value(t) == 0 && DigitChar(d) == s[0];
      assert s == [s[0]];
    }
  }

  predicate Signed(s: string) { s != [] && (s[0] == '-' || s[0] == '+') }

  /** s is v in decimal: digits, behind at most one sign. */
  ghost predicate Spells(s: string, v: int) {
    && Spelled(if Signed(s) then s[1..] else s, if v < 0 then -v else v)
    && (v < 0 ==> s[0] == '-') && (v > 0 ==> s[0] != '-')
  }

  /** strconv.Atoi accepts exactly the strings that spell a number, and returns that number. */
  lemma AtoiIff(s: string, v: int)
    ensures Atoi(s) == Some(v) <==> Spells(s, v)
  {
    var t := if Signed(s) then s[1..] else s;
    SpelledIff(t, if v < 0 then -v else v);
    hide Spelled;
    if AllDigits(t) {
      ValueIsNat(t);
    }
    assert s != [] && !Signed(s) && AllDigits(s) ==> IsDigit(s[0]);
    hide Value;
  }

  /** The number oldLogFiles reads off a file name; 0 when there is none. */
  function Sequence(prefix: string, name: string): int
    requires prefix <= name
  {
    if |name| > |prefix| then
      var ts := name[|prefix| + 1..];
      var v := Atoi(ts);
      if ts != "" && v.Some? then v.value else 0
    else 0
  }

  function Numbered(prefix: string, k: int): (name: string)
    ensures prefix <= name && name != prefix
  {
    prefix + "." + Itoa(k)
  }

  /** nextFileName. */
  function NextFileName(prefix: string, i: int): string { Numbered(prefix, i + 1) }

  lemma SequenceOfNumbered(prefix: string, k: int)
    ensures Sequence(prefix, Numbered(prefix, k)) == k
  {
    AtoiOfItoa(k);
    assert Numbered(prefix, k)[|prefix| + 1..] == Itoa(k);
    assert Itoa(k) != "";
  }

  /** What comes after the character behind the prefix spells v. */
  ghost predicate EndsIn(prefix: string, name: string, v: int) {
    |name| > |prefix| && Spells(name[|prefix| + 1..], v)
  }

  /** A name counts as the number it ends in; a name that ends in none counts as 0. */
  lemma SequenceIs(prefix: string, name: string)
    requires prefix <= name
    ensures forall v | EndsIn(prefix, name, v) :: Sequence(prefix, name) == v
    ensures (forall v :: !EndsIn(prefix, name, v)) ==> Sequence(prefix, name) == 0
  {
    if |name| > |prefix| {
      var ts := name[|prefix| + 1..];
      forall v ensures Atoi(ts) == Some(v) <==> EndsIn(prefix, name, v) {
        AtoiIff(ts, v);
      }
      hide Spells;
      if Atoi(ts).Some? {
        assert EndsIn(prefix, name, Atoi(ts).value);
      }
    }
  }

  // ------------------------------------------------ the form of the names

  /** Name, a dot and a numeral of k: a name that rotation gives. */
  ghost predicate NameOf(prefix: string, n: string, k: nat) {
    && |n| > |prefix| + 1 && n[..|prefix|] == prefix && n[|prefix|] == '.'
    && Numeral(n[|prefix| + 1..], k) && n[|prefix| + 1] != '0'
  }

  /** The same without saying which number: behind the dot come digits, the first not '0'. */
  predicate Rotated(prefix: string, n: string) {
    && |n| > |prefix| + 1 && n[..|prefix|] == prefix && n[|prefix|] == '.' && n[|prefix| + 1] != '0'
    && forall i | |prefix| < i < |n| :: IsDigit(n[i])
  }

  /** The name that rotation gives number k has that form, and no other name has. */
  lemma NameOfIff(prefix: string, n: string, k: nat)
    requires k >= 1
    ensures NameOf(prefix, n, k) <==> n == Numbered(prefix, k)
  {
    DigitsAreNumeral(k);
    if NameOf(prefix, n, k) {
      var s := n[|prefix| + 1..];
      SpelledIff(s, k);
      DigitsOfValue(s);
      hide Numeral, Digits;
      assert n == prefix + "." + s;
    }
    hide Numeral, Digits;
    var m := Numbered(prefix, k);
    assert m[|prefix| + 1..] == Digits(k);
    assert m[|prefix| + 1] == Digits(k)[0];
  }

  /** Every name of that form is the one rotation writes for the number that is read off it. */
  lemma RotatedIff(prefix: string, n: string)
    requires prefix <= n
    ensures Rotated(prefix, n) <==> Sequence(prefix, n) >= 1 && n == Numbered(prefix, Sequence(prefix, n))
  {
    if Rotated(prefix, n) {
      var s := n[|prefix| + 1..];
      assert s[0] == n[|prefix| + 1];
      DigitsOfValue(s);
      assert Sequence(prefix, n) == Value(s);
      hide Digits, Value;
      assert n == prefix + "." + s;
    } else if Sequence(prefix, n) >= 1 {
      NumberedIsRotated(prefix, Sequence(prefix, n));
    }
  }

  lemma NumberedIsRotated(prefix: string, k: nat)
    requires k >= 1
    ensures Rotated(prefix, Numbered(prefix, k))
  {
    DigitsAreNumeral(k);
    hide Numeral;
    var n := Numbered(prefix, k);
    assert forall i | |prefix| < i < |n| :: n[i] == Digits(k)[i - |prefix| - 1];
  }
}
