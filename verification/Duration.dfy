/**
 `parseDuration` (pkg/query/parser.go): digits and a unit, in wrapping 64-bit arithmetic.
 */
module Durations {
  import opened Instants
  import opened Integers
  import opened Decimal

  /** The int64 value with the same low 64 bits. */
  function Wrap(n: int): (r: int)
    ensures -TWO63 <= r < TWO63 && (r - n) % TWO64 == 0
    ensures -TWO63 <= n < TWO63 ==> r == n
  {
    var m := n % TWO64;
    if m < TWO63 then m else m - TWO64
  }

  /** Nanoseconds per unit, 0 for text that is no unit. */
  function UnitNanos(unit: string): int {
    if unit == "s" then SECOND
    else if unit == "m" then 60 * SECOND
    else if unit == "h" then 3600 * SECOND
    else if unit == "d" then 86400 * SECOND
    else if unit == "w" then 7 * 86400 * SECOND
    else if unit == "y" then 365 * 86400 * SECOND
    else 0
  }

  /** The digit loop: the wrapped value of the leading digits and where they end. */
  function ReadDigits(s: string, i: nat, value: int): (r: (int, nat))
    requires i <= |s|
    ensures i <= r.1 <= |s|
    decreases |s| - i
  {
    if i < |s| && IsDigit(s[i]) then ReadDigits(s, i + 1, Wrap(Wrap(value * 10) + DigitValue(s[i]))) else (value, i)
  }

  function ParseResult(s: string): int {
    var (value, i) := ReadDigits(s, 0, 0);
    Wrap(value * UnitNanos(s[i..]))
  }

  method ParseDuration(s: string) returns (d: int)
    ensures d == ParseResult(s)
  {
    var value := 0;
    var i := 0;
    while i < |s| && IsDigit(s[i])
      invariant 0 <= i <= |s|
      invariant ReadDigits(s, i, value) == ReadDigits(s, 0, 0)
    {
      value := Wrap(Wrap(value * 10) + DigitValue(s[i]));
      i := i + 1;
    }
    var unit := s[i..];
    d := Wrap(value * UnitNanos(unit));
  }

  lemma {:induction false} WrapStep(value: int, exact: int, d: int)
    requires value == Wrap(exact)
    ensures Wrap(Wrap(value * 10) + d) == Wrap(exact * 10 + d)
  {
    var k := (value - exact) / TWO64;
    assert value == exact + k * TWO64;
    var a := Wrap(value * 10);
    var j := (a - value * 10) / TWO64;
    assert a + d == exact * 10 + d + (10 * k + j) * TWO64;
    SameResidue(a + d, exact * 10 + d, 10 * k + j);
  }

  lemma SameResidue(a: int, b: int, k: int)
    requires a == b + k * TWO64
    ensures Wrap(a) == Wrap(b)
  {
    assert a % TWO64 == b % TWO64;
  }

  /** The digit loop computes the decimal value modulo 2^64. */
  lemma {:induction false} DigitsWrapped(s: string, i: nat, n: nat, value: int, exact: int)
    requires i <= n <= |s|
    requires forall j :: i <= j < n ==> IsDigit(s[j])
    requires n == |s| || !IsDigit(s[n])
    requires value == Wrap(exact)
    ensures ReadDigits(s, i, value) == (Wrap(Accumulate(s[i..n], exact)), n)
    decreases n - i
  {
    if i == n {
      assert s[i..n] == [];
    } else {
      WrapStep(value, exact, DigitValue(s[i]));
      DigitsWrapped(s, i + 1, n, Wrap(Wrap(value * 10) + DigitValue(s[i])), exact * 10 + DigitValue(s[i]));
      assert s[i..n][1..] == s[i + 1..n];
    }
  }

  lemma UnitStartsNoDigit(unit: string)
    requires UnitNanos(unit) > 0
    ensures unit != [] && !IsDigit(unit[0])
  {
  }

  lemma {:induction false} NumberAndUnitValue(n: nat, unit: string)
    requires UnitNanos(unit) > 0
    ensures ParseResult(Digits(n) + unit) == Wrap(Wrap(n) * UnitNanos(unit))
  {
    var s := Digits(n) + unit;
    var k := |Digits(n)|;
    UnitStartsNoDigit(unit);
    assert s[0..k] == Digits(n) && s[k..] == unit;
    forall j | 0 <= j < k ensures IsDigit(s[j]) { assert s[j] == Digits(n)[j]; }
    assert s[k] == unit[0];
    DigitsWrapped(s, 0, k, 0, 0);
    DigitsValue(n);
  }

  /** A number and a unit parse to their exact product exactly when that product fits in
      64 signed bits. */
  lemma ParseNumberAndUnit(n: nat, unit: string)
    requires UnitNanos(unit) > 0
    ensures ParseResult(Digits(n) + unit) == n * UnitNanos(unit) <==> n * UnitNanos(unit) < TWO63
  {
    NumberAndUnitValue(n, unit);
    ProductDominates(n, UnitNanos(unit));
  }

  lemma ProductDominates(n: nat, u: int)
    requires u > 0
    ensures n <= n * u
  {
  }

  /** What a number with a unit denotes, in nanoseconds. */
  lemma {:induction false} UnitsDenote(n: nat)
    ensures n * 1_000_000_000 < TWO63 ==> ParseResult(Digits(n) + "s") == n * 1_000_000_000
    ensures n * 60_000_000_000 < TWO63 ==> ParseResult(Digits(n) + "m") == n * 60_000_000_000
    ensures n * 3_600_000_000_000 < TWO63 ==> ParseResult(Digits(n) + "h") == n * 3_600_000_000_000
    ensures n * 86_400_000_000_000 < TWO63 ==> ParseResult(Digits(n) + "d") == n * 86_400_000_000_000
    ensures n * 604_800_000_000_000 < TWO63 ==> ParseResult(Digits(n) + "w") == n * 604_800_000_000_000
    ensures n * 31_536_000_000_000_000 < TWO63 ==> ParseResult(Digits(n) + "y") == n * 31_536_000_000_000_000
  {
    hide ParseResult;
    ParseNumberAndUnit(n, "s");
    ParseNumberAndUnit(n, "m");
    ParseNumberAndUnit(n, "h");
    ParseNumberAndUnit(n, "d");
    ParseNumberAndUnit(n, "w");
    ParseNumberAndUnit(n, "y");
  }

  /** Text without one of the six units denotes nothing. */
  lemma NoUnit(s: string)
    requires forall i :: 0 <= i <= |s| ==> s[i..] !in {"s", "m", "h", "d", "w", "y"}
    ensures ParseResult(s) == 0
  {
    var (value, i) := ReadDigits(s, 0, 0);
    assert s[i..] !in {"s", "m", "h", "d", "w", "y"};
    assert value * 0 == 0;
  }
}
