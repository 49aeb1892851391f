/**
 The `%f` and `%d` texts in which aggregates keep their statistics (pkg/compaction/types.go)
 and what reading them back gives.
 */
module FixedPoint {
  import opened Integers
  import opened Decimal
  import opened Options

  function Pow10(k: nat): (p: nat)
    ensures p > 0
  {
    if k == 0 then 1 else 10 * Pow10(k - 1)
  }

  const MICRO: nat := 1_000_000

  /** The integer nearest to `x`, an even one when two are equally near. */
  function RoundHalfEven(x: real): int {
    var f := x.Floor;
    var d := x - f as real;
    if d < 0.5 then f else if d > 0.5 then f + 1 else if f % 2 == 0 then f else f + 1
  }

  function Abs(x: real): real { if x < 0.0 then -x else x }

  /** `x` in millionths, rounded as `%f` does. */
  function Micros(x: real): nat {
    RoundHalfEven(Abs(x) * MICRO as real)
  }

  /** The number `%f` of `x` denotes: within half a millionth of `x`. */
  function Rounded(x: real): (r: real)
    ensures Abs(r - x) <= 0.0000005
  {
    var n := Micros(x);
    assert Abs(n as real - Abs(x) * MICRO as real) <= 0.5;
    assert Abs(n as real / MICRO as real - Abs(x)) <= 0.0000005;
    if x < 0.0 then -(n as real / MICRO as real) else n as real / MICRO as real
  }

  /** Multiples of a millionth are written exactly. */
  function Millionths(n: int): real { n as real / MICRO as real }

  ghost predicate IsMicro(x: real) { exists n :: x == Millionths(n) }

  lemma {:induction false} RoundedExact(x: real)
    requires IsMicro(x)
    ensures Rounded(x) == x
  {
    var n :| x == Millionths(n);
    var m := if n < 0 then -n else n;
    MicrosOfMillionths(m);
    if n < 0 { assert Millionths(n) == -Millionths(m); }
    assert Abs(x) == Millionths(m);
  }

  lemma MicrosOfMillionths(m: nat)
    ensures RoundHalfEven(Millionths(m) * MICRO as real) == m && Millionths(m) >= 0.0
  {
    assert Millionths(m) * MICRO as real == m as real;
  }

  lemma MicroSum(x: real, y: real)
    requires IsMicro(x) && IsMicro(y)
    ensures IsMicro(x + y)
  {
    var n :| x == Millionths(n);
    var m :| y == Millionths(m);
    assert x + y == Millionths(n + m);
  }

  /** `m` in exactly `k` digits, zeros in front. */
  function Padded(m: nat, k: nat): (s: string)
    ensures |s| == k && AllDigits(s)
  {
    if k == 0 then "" else Padded(m / 10, k - 1) + [DigitChar(m % 10)]
  }

  lemma {:induction false} PaddedValue(m: nat, k: nat, acc: int)
    requires m < Pow10(k)
    ensures Accumulate(Padded(m, k), acc) == acc * Pow10(k) + m
  {
    if k > 0 {
      PaddedValue(m / 10, k - 1, acc);
      AccumulateAppend(Padded(m / 10, k - 1), [DigitChar(m % 10)], acc);
      NextDigit(acc, Pow10(k - 1), m);
    }
  }

  lemma NextDigit(acc: int, p: nat, m: nat)
    ensures (acc * p + m / 10) * 10 + m % 10 == acc * (10 * p) + m
  {
    assert m / 10 * 10 + m % 10 == m;
  }

  /** `fmt.Sprintf("%f", x)`. */
  function FormatFloat(x: real): string {
    var n := Micros(x);
    (if x < 0.0 then "-" else "") + Digits(n / MICRO) + "." + Padded(n % MICRO, 6)
  }

  /** Where the digits that start at `i` end. */
  function DigitsEnd(s: string, i: nat): (n: nat)
    requires i <= |s|
    ensures i <= n <= |s|
    decreases |s| - i
  {
    if i < |s| && IsDigit(s[i]) then DigitsEnd(s, i + 1) else i
  }

  lemma {:induction false} DigitsEndExact(s: string, i: nat, n: nat)
    requires i <= n <= |s|
    requires forall j :: i <= j < n ==> IsDigit(s[j])
    requires n == |s| || !IsDigit(s[n])
    ensures DigitsEnd(s, i) == n
    decreases n - i
  {
    if i < n { DigitsEndExact(s, i + 1, n); }
  }

  function SignEnd(s: string): nat {
    if s != [] && (s[0] == '-' || s[0] == '+') then 1 else 0
  }

  /** The digits of the fraction that may start at `i`. */
  function FractionAt(s: string, i: nat): string
    requires i <= |s|
  {
    if i < |s| && s[i] == '.' then s[i + 1..DigitsEnd(s, i + 1)] else ""
  }

  function Scaled(digits: string, decimals: nat): real {
    Accumulate(digits, 0) as real / Pow10(decimals) as real
  }

  /** `fmt.Sscanf(s, "%f", &x)` on sign, digits and fraction; None where it reports an
      error because no digit is there. */
  function ScanFloat(s: string): Option<real> {
    var start := SignEnd(s);
    var i := DigitsEnd(s, start);
    var fraction := FractionAt(s, i);
    if i == start && fraction == "" then None
    else
      var v := Scaled(s[start..i] + fraction, |fraction|);
      Some(if s[0] == '-' then -v else v)
  }

  lemma {:induction false} WholeEnds(s: string, sign: string, whole: string, rest: string)
    requires s == sign + whole + rest
    requires sign == "" || sign == "-"
    requires whole != "" && AllDigits(whole) && rest != "" && rest[0] == '.'
    ensures SignEnd(s) == |sign| && s[|sign|..|sign| + |whole|] == whole
    ensures DigitsEnd(s, |sign|) == |sign| + |whole|
  {
    var b := |sign|;
    assert s[b..] == whole + rest;
    forall k | b <= k < b + |whole| ensures IsDigit(s[k]) { assert s[k] == whole[k - b]; }
    assert s[b + |whole|] == '.';
    assert sign == "" ==> s[0] == whole[0];
    DigitsEndExact(s, b, b + |whole|);
  }

  lemma FractionEnds(s: string, front: string, fraction: string)
    requires s == front + "." + fraction && AllDigits(fraction)
    ensures FractionAt(s, |front|) == fraction
  {
    var i := |front|;
    forall k | i + 1 <= k < |s| ensures IsDigit(s[k]) { assert s[k] == fraction[k - i - 1]; }
    DigitsEndExact(s, i + 1, |s|);
  }

  lemma FormatParts(s: string, sign: string, whole: string, fraction: string)
    requires s == sign + whole + "." + fraction
    requires sign == "" || sign == "-"
    requires whole != "" && AllDigits(whole) && AllDigits(fraction)
    ensures var v := Scaled(whole + fraction, |fraction|);
            ScanFloat(s) == Some(if sign == "-" then -v else v)
  {
    assert s == sign + whole + ("." + fraction);
    WholeEnds(s, sign, whole, "." + fraction);
    FractionEnds(s, sign + whole, fraction);
    hide DigitsEnd, SignEnd, FractionAt, Scaled, AllDigits;
    assert s[0] == if sign == "-" then '-' else whole[0];
    assert whole[0] != '-' by { DigitIsNoSign(whole); }
  }

  lemma DigitIsNoSign(whole: string)
    requires whole != "" && AllDigits(whole)
    ensures whole[0] != '-'
  {
    assert IsDigit(whole[0]);
  }

  /** Reading back a written float gives the rounded number. */
  lemma ScanFormat(x: real)
    ensures ScanFloat(FormatFloat(x)) == Some(Rounded(x))
  {
    var n := Micros(x);
    var whole, fraction := Digits(n / MICRO), Padded(n % MICRO, 6);
    var sign := if x < 0.0 then "-" else "";
    FormatParts(FormatFloat(x), sign, whole, fraction);
    AccumulateAppend(whole, fraction, 0);
    DigitsValue(n / MICRO);
    assert Pow10(6) == MICRO;
    PaddedValue(n % MICRO, 6, n / MICRO);
  }

  /** `fmt.Sscanf(s, "%d", &n)` into an unsigned 64-bit integer. */
  function ScanCount(s: string): Option<nat> {
    var i := DigitsEnd(s, 0);
    if i == 0 || Accumulate(s[..i], 0) < 0 || Accumulate(s[..i], 0) >= TWO64 then None
    else Some(Accumulate(s[..i], 0))
  }

  lemma ScanDigits(n: nat)
    requires n < TWO64
    ensures ScanCount(Digits(n)) == Some(n)
  {
    var s := Digits(n);
    DigitsEndExact(s, 0, |s|);
    assert s[..|s|] == s;
    DigitsValue(n);
  }
}
