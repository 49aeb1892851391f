/**
 Instants as RFC 3339 text, as bucket times stand in the aggregate key
 (pkg/compaction/compactor.go): the proleptic Gregorian date and the time of day in UTC, to
 the second.
 */
module Calendar {
  import opened Decimal
  import opened FixedPoint

  /* ---- dates ---- */

  predicate Leap(year: int) { year % 4 == 0 && (year % 100 != 0 || year % 400 == 0) }

  function YearLength(year: int): nat { if Leap(year) then 366 else 365 }

  function MonthLength(year: int, month: nat): nat {
    if month == 2 then if Leap(year) then 29 else 28
    else if month == 4 || month == 6 || month == 9 || month == 11 then 30
    else 31
  }

  /** The days from 1970 to the start of a year. */
  function DaysToYear(year: int): int
    decreases if year < 1970 then 1970 - year else year - 1970
  {
    if year > 1970 then DaysToYear(year - 1) + YearLength(year - 1)
    else if year < 1970 then DaysToYear(year + 1) - YearLength(year)
    else 0
  }

  /** The days of a year before a month. */
  function DaysToMonth(year: int, month: nat): nat {
    if month <= 1 then 0 else DaysToMonth(year, month - 1) + MonthLength(year, month - 1)
  }

  /** The year that day `d`, counted from the start of `year`, lies in, and its number there. */
  function FindYear(year: int, d: int): (r: (int, nat))
    ensures r.1 < YearLength(r.0) && DaysToYear(r.0) + r.1 == DaysToYear(year) + d
    decreases if d < 0 then 1000 - d else d
  {
    if d < 0 then FindYear(year - 1, d + YearLength(year - 1))
    else if d >= YearLength(year) then FindYear(year + 1, d - YearLength(year))
    else (year, d)
  }

  /** The same for the months of a year. */
  function FindMonth(year: int, month: nat, d: nat): (r: (nat, nat))
    requires 1 <= month <= 12 && DaysToMonth(year, month) + d < YearLength(year)
    ensures 1 <= r.0 <= 12 && r.1 < MonthLength(year, r.0) && DaysToMonth(year, r.0) + r.1 == DaysToMonth(year, month) + d
    decreases 12 - month
  {
    LastMonth(year);
    if d < MonthLength(year, month) then (month, d) else FindMonth(year, month + 1, d - MonthLength(year, month))
  }

  lemma LastMonth(year: int)
    ensures DaysToMonth(year, 12) + MonthLength(year, 12) == YearLength(year)
  {
    assert DaysToMonth(year, 3) == DaysToMonth(year, 2) + MonthLength(year, 2) == YearLength(year) - 306;
    assert DaysToMonth(year, 5) == DaysToMonth(year, 4) + 30 == DaysToMonth(year, 3) + 61;
    assert DaysToMonth(year, 7) == DaysToMonth(year, 6) + 30 == DaysToMonth(year, 5) + 61;
    assert DaysToMonth(year, 9) == DaysToMonth(year, 8) + 31 == DaysToMonth(year, 7) + 62;
    assert DaysToMonth(year, 11) == DaysToMonth(year, 10) + 31 == DaysToMonth(year, 9) + 61;
  }

  datatype Date = Date(year: int, month: nat, day: nat)

  /** The date of a day counted from 1970: its month and day are those of a calendar, and the
      days up to it are that many. */
  function DateOf(days: int): (date: Date)
    ensures 1 <= date.month <= 12 && 1 <= date.day <= MonthLength(date.year, date.month)
    ensures DaysToYear(date.year) + DaysToMonth(date.year, date.month) + date.day - 1 == days
  {
    var y := FindYear(1970, days);
    var m := FindMonth(y.0, 1, y.1);
    Date(y.0, m.0, m.1 + 1)
  }

  /** The usual formula for the days before a month, counted from March. */
  lemma {:induction false} MonthsFormula(year: int, month: nat)
    requires 1 <= month <= 12
    ensures var leap := year % 4 == 0 && (year % 100 != 0 || year % 400 == 0);
            DaysToMonth(year, month) ==
            if month == 1 then 0 else if month == 2 then 31 else 59 + (if leap then 1 else 0) + (153 * (month - 3) + 2) / 5
  {
    if month > 1 { MonthsFormula(year, month - 1); }
  }

  lemma QuotientSteps(n: int)
    ensures n / 4 == (n - 1) / 4 + if n % 4 == 0 then 1 else 0
    ensures n / 100 == (n - 1) / 100 + if n % 100 == 0 then 1 else 0
    ensures n / 400 == (n - 1) / 400 + if n % 400 == 0 then 1 else 0
  {
  }

  /** The years divisible by 4, but of the centuries only those divisible by 400. */
  lemma LeapExactly(n: int)
    ensures YearLength(n) ==
            365 + (if n % 4 == 0 then 1 else 0) - (if n % 100 == 0 then 1 else 0) + (if n % 400 == 0 then 1 else 0)
  {
    Multiple(n, 4, 25);
    Multiple(n, 100, 4);
  }

  /** A multiple of a product is a multiple of its first factor. */
  lemma Multiple(n: int, a: nat, b: nat)
    requires (a == 4 && b == 25) || (a == 100 && b == 4)
    ensures n % (a * b) == 0 ==> n % a == 0
  {
    var k := n / (a * b);
    if n % (a * b) == 0 {
      assert n == k * (a * b);
      if a == 4 { assert n == 4 * (25 * k); } else { assert n == 100 * (4 * k); }
    }
  }

  function LeapsBefore(year: int): int { (year - 1) / 4 - (year - 1) / 100 + (year - 1) / 400 }

  lemma LeapsStep(year: int)
    ensures LeapsBefore(year + 1) + 365 == LeapsBefore(year) + YearLength(year)
  {
    hide YearLength;
    LeapExactly(year);
    QuotientSteps(year);
  }

  /** And for the days before a year. */
  lemma {:induction false} YearsFormula(year: int)
    ensures DaysToYear(year) == 365 * (year - 1970) + LeapsBefore(year) - LeapsBefore(1970)
    decreases if year < 1970 then 1970 - year else year - 1970
  {
    hide LeapsBefore, YearLength;
    if year > 1970 {
      YearsFormula(year - 1);
      LeapsStep(year - 1);
    } else if year < 1970 {
      YearsFormula(year + 1);
      LeapsStep(year);
    }
  }

  /* ---- text ---- */

  function YearDigits(n: nat): (s: string)
    ensures s != [] && AllDigits(s)
  {
    if n < Pow10(4) then Padded(n, 4) else Digits(n)
  }

  /** A year in at least four digits. */
  function YearText(year: int): string { if year < 0 then "-" + YearDigits(-year) else YearDigits(year) }

  /** A separator and a number in two digits. */
  function WithField(front: string, separator: char, n: nat): string { front + ([separator] + Padded(n, 2)) }

  const DAY_SECONDS: int := 86400

  /** `t.Format(time.RFC3339)` for a UTC instant in whole seconds. */
  function Rfc3339(seconds: int): string {
    var date, s := DateOf(seconds / DAY_SECONDS), seconds % DAY_SECONDS;
    WithField(WithField(WithField(DateText(date), 'T', s / 3600), ':', s / 60 % 60), ':', s % 60) + "Z"
  }

  function DateText(date: Date): string {
    WithField(WithField(YearText(date.year), '-', date.month), '-', date.day)
  }

  /* ---- what the text determines ---- */

  lemma PaddedInjective(a: nat, b: nat, k: nat)
    requires a < Pow10(k) && b < Pow10(k) && Padded(a, k) == Padded(b, k)
    ensures a == b
  {
    PaddedValue(a, k, 0);
    PaddedValue(b, k, 0);
  }

  lemma FieldInjective(x: string, y: string, separator: char, a: nat, b: nat)
    requires a < 100 && b < 100 && WithField(x, separator, a) == WithField(y, separator, b)
    ensures x == y && a == b
  {
    var s := WithField(x, separator, a);
    assert |s| == |x| + 3 == |y| + 3;
    assert s[..|x|] == x && s[..|y|] == y;
    assert s[|x| + 1..] == Padded(a, 2) && s[|y| + 1..] == Padded(b, 2);
    assert Pow10(2) == 100;
    PaddedInjective(a, b, 2);
  }

  lemma YearDigitsValue(n: nat)
    ensures Accumulate(YearDigits(n), 0) == n
  {
    if n < Pow10(4) { PaddedValue(n, 4, 0); } else { DigitsValue(n); }
  }

  lemma YearInjective(a: int, b: int)
    requires YearText(a) == YearText(b)
    ensures a == b
  {
    hide YearDigits;
    var m, n := if a < 0 then -a else a, if b < 0 then -b else b;
    var x, y := YearDigits(m), YearDigits(n);
    assert IsDigit(x[0]) && IsDigit(y[0]);
    assert a < 0 ==> YearText(a)[0] == '-' && YearText(a)[1..] == x;
    assert b < 0 ==> YearText(b)[0] == '-' && YearText(b)[1..] == y;
    YearDigitsValue(m);
    YearDigitsValue(n);
  }

  lemma DateInjective(a: int, b: int)
    requires DateText(DateOf(a)) == DateText(DateOf(b))
    ensures a == b
  {
    hide WithField, YearText, DateOf, DaysToYear, DaysToMonth;
    var x, y := DateOf(a), DateOf(b);
    FieldInjective(WithField(YearText(x.year), '-', x.month), WithField(YearText(y.year), '-', y.month), '-', x.day, y.day);
    FieldInjective(YearText(x.year), YearText(y.year), '-', x.month, y.month);
    YearInjective(x.year, y.year);
  }

  lemma TimeOfDay(s: int)
    requires 0 <= s < DAY_SECONDS
    ensures s == s / 3600 * 3600 + s / 60 % 60 * 60 + s % 60 && s / 3600 < 24
  {
  }

  /** Different seconds have different texts. */
  lemma Rfc3339Injective(a: int, b: int)
    requires Rfc3339(a) == Rfc3339(b)
    ensures a == b
  {
    hide WithField, DateText, DateOf, Padded;
    var x, y := DateText(DateOf(a / DAY_SECONDS)), DateText(DateOf(b / DAY_SECONDS));
    var s, t := a % DAY_SECONDS, b % DAY_SECONDS;
    var u, v := WithField(WithField(x, 'T', s / 3600), ':', s / 60 % 60), WithField(WithField(y, 'T', t / 3600), ':', t / 60 % 60);
    EndsAlike(WithField(u, ':', s % 60), WithField(v, ':', t % 60), "Z");
    TimeOfDay(s);
    TimeOfDay(t);
    FieldInjective(u, v, ':', s % 60, t % 60);
    FieldInjective(WithField(x, 'T', s / 3600), WithField(y, 'T', t / 3600), ':', s / 60 % 60, t / 60 % 60);
    FieldInjective(x, y, 'T', s / 3600, t / 3600);
    DateInjective(a / DAY_SECONDS, b / DAY_SECONDS);
  }

  lemma EndsAlike(x: string, y: string, end: string)
    requires x + end == y + end
    ensures x == y
  {
    assert x == (x + end)[..|x + end| - |end|];
    assert y == (y + end)[..|y + end| - |end|];
  }

  /** The characters of such a text. */
  predicate Plain(s: string) { ',' !in s && '@' !in s }

  lemma DigitsPlain(s: string)
    requires AllDigits(s)
    ensures Plain(s)
  {
    forall i | 0 <= i < |s| ensures s[i] != ',' && s[i] != '@' { assert IsDigit(s[i]); }
  }

  lemma FieldPlain(front: string, separator: char, n: nat)
    requires Plain(front) && Plain([separator])
    ensures Plain(WithField(front, separator, n))
  {
    DigitsPlain(Padded(n, 2));
  }

  lemma DatePlain(date: Date)
    ensures Plain(DateText(date))
  {
    hide WithField;
    DigitsPlain(YearDigits(if date.year < 0 then -date.year else date.year));
    FieldPlain(YearText(date.year), '-', date.month);
    FieldPlain(WithField(YearText(date.year), '-', date.month), '-', date.day);
  }

  lemma Rfc3339Plain(seconds: int)
    ensures Plain(Rfc3339(seconds))
  {
    hide WithField, DateText, DateOf;
    var x, s := DateText(DateOf(seconds / DAY_SECONDS)), seconds % DAY_SECONDS;
    DatePlain(DateOf(seconds / DAY_SECONDS));
    FieldPlain(x, 'T', s / 3600);
    FieldPlain(WithField(x, 'T', s / 3600), ':', s / 60 % 60);
    FieldPlain(WithField(WithField(x, 'T', s / 3600), ':', s / 60 % 60), ':', s % 60);
  }
}
