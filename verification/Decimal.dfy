/**
 Decimal text of natural numbers, as `%d` writes it, and its value.
 */
module Decimal {

  predicate IsDigit(c: char) { '0' <= c <= '9' }

  function DigitValue(c: char): int { c as int - '0' as int }

  function DigitChar(d: nat): (c: char)
    requires d < 10
    ensures IsDigit(c) && DigitValue(c) == d
  {
    ('0' as int + d) as char
  }

  predicate AllDigits(s: string) { forall i :: 0 <= i < |s| ==> IsDigit(s[i]) }

  function Digits(n: nat): (s: string)
    ensures s != [] && AllDigits(s)
  {
    if n < 10 then [DigitChar(n)] else Digits(n / 10) + [DigitChar(n % 10)]
  }

  /** Reading characters left to right as decimal digits, `acc` being the value so far. */
  function Accumulate(s: string, acc: int): int
    decreases |s|
  {
    if s == [] then acc else Accumulate(s[1..], acc * 10 + DigitValue(s[0]))
  }

  lemma {:induction false} AccumulateAppend(s: string, t: string, acc: int)
    ensures Accumulate(s + t, acc) == Accumulate(t, Accumulate(s, acc))
    decreases |s|
  {
    if s == [] {
      assert s + t == t;
    } else {
      assert (s + t)[1..] == s[1..] + t;
      AccumulateAppend(s[1..], t, acc * 10 + DigitValue(s[0]));
    }
  }

  /** Reading back what `Digits` writes. */
  lemma {:induction false} DigitsValue(n: nat)
    ensures Accumulate(Digits(n), 0) == n
  {
    if n >= 10 {
      DigitsValue(n / 10);
      AccumulateAppend(Digits(n / 10), [DigitChar(n % 10)], 0);
    }
  }

  lemma DigitsInjective(a: nat, b: nat)
    requires Digits(a) == Digits(b)
    ensures a == b
  {
    DigitsValue(a);
    DigitsValue(b);
  }
}
