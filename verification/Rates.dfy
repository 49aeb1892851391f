/**
 `rate` and `increase` over one series (pkg/query/executor.go): the sliding window against
 the search it replaces.  Instants and the range are nanoseconds.
 */
module Rates {
  import opened Options

  datatype Sample = Sample(time: int, value: real)

  /** A quotient: dividing by a zero range leaves the reals. */
  datatype Quotient = Finite(value: real) | Infinite | Undefined

  datatype RatePoint = RatePoint(time: int, value: Quotient)

  predicate Sorted(points: seq<Sample>) {
    forall i, j :: 0 <= i < j < |points| ==> points[i].time <= points[j].time
  }

  const NANOS: real := 1000000000.0

  function Seconds(d: int): real { d as real / NANOS }

  /** `(current - start) / duration`, a negative quotient replaced by zero. */
  function PerSecond(delta: real, d: int): Quotient {
    if d == 0 then
      if delta > 0.0 then Infinite else if delta == 0.0 then Undefined else Finite(0.0)
    else
      var rate := delta / Seconds(d);
      Finite(if rate < 0.0 then 0.0 else rate)
  }

  /* ---- the search ---- */

  /** The last of the first `n` points strictly before `cutoff`. */
  function LastBefore(points: seq<Sample>, n: nat, cutoff: int): Option<nat>
    requires n <= |points|
  {
    if n == 0 then None else if points[n - 1].time < cutoff then Some(n - 1) else LastBefore(points, n - 1, cutoff)
  }

  /** The sample point `i` is compared with: the last one strictly before the range, or else
      the first one if it stands exactly at the start of the range. */
  function Baseline(points: seq<Sample>, i: nat, d: int): Option<nat>
    requires i < |points|
  {
    if d < 0 then None
    else
      var cutoff := points[i].time - d;
      var last := LastBefore(points, |points|, cutoff);
      if last.Some? then last
      else if i > 0 && points[0].time == cutoff then Some(0)
      else None
  }

  /** What `rate` emits for the first `n` points, by searching for each of them. */
  function NaiveRates(points: seq<Sample>, n: nat, d: int): seq<RatePoint>
    requires n <= |points|
  {
    if n == 0 then []
    else
      var rest, k := NaiveRates(points, n - 1, d), Baseline(points, n - 1, d);
      if k == None || k.value >= |points| then rest
      else rest + [RatePoint(points[n - 1].time, PerSecond(points[n - 1].value - points[k.value].value, d))]
  }

  lemma {:induction false} LastBeforeIs(points: seq<Sample>, n: nat, cutoff: int)
    requires n <= |points|
    ensures var k := LastBefore(points, n, cutoff);
            && (k.Some? ==> k.value < n && points[k.value].time < cutoff)
            && (forall j :: 0 <= j < n && (k.Some? ==> j > k.value) ==> points[j].time >= cutoff)
  {
    if n > 0 && points[n - 1].time >= cutoff { LastBeforeIs(points, n - 1, cutoff); }
  }

  lemma LastBeforeUnique(points: seq<Sample>, k: nat, cutoff: int)
    requires k < |points| && points[k].time < cutoff
    requires forall j :: k < j < |points| ==> points[j].time >= cutoff
    ensures LastBefore(points, |points|, cutoff) == Some(k)
  {
    LastBeforeIs(points, |points|, cutoff);
  }

  /** What the baseline of a positive range is: an earlier sample, out of the range or on its
      start, with no later sample strictly before the range; none exactly when the series
      starts inside the range. */
  lemma BaselineIs(points: seq<Sample>, i: nat, d: int)
    requires Sorted(points) && i < |points| && d > 0
    ensures var k, cutoff := Baseline(points, i, d), points[i].time - d;
            && (k == None <==> points[0].time > cutoff)
            && (k.Some? ==> k.value < i && points[k.value].time <= cutoff
                            && (forall j :: k.value < j < |points| ==> points[j].time >= cutoff)
                            && (points[k.value].time == cutoff ==> k.value == 0))
  {
    LastBeforeIs(points, |points|, points[i].time - d);
  }

  /* ---- the sliding window ---- */

  /** The window's start has been pushed as far as point `i - 1` allows. */
  ghost predicate Behind(points: seq<Sample>, start: nat, i: nat, d: int)
    requires i <= |points|
  {
    && (start == 0 || (start < |points| && 0 < i && points[start].time < points[i - 1].time - d))
    && start <= i
  }

  lemma WindowMoves(points: seq<Sample>, start: nat, i: nat, d: int)
    requires Sorted(points) && i < |points| && Behind(points, start, i, d)
    ensures start == 0 || points[start].time < points[i].time - d
  {
  }

  /** The window's start after point `i` finds the baseline. */
  lemma WindowFinds(points: seq<Sample>, start: nat, i: nat, d: int)
    requires Sorted(points) && i < |points| && start <= i
    requires start == 0 || points[start].time < points[i].time - d
    requires start < i ==> points[start + 1].time >= points[i].time - d
    ensures Baseline(points, i, d) ==
            if start < i && points[start].time <= points[i].time - d then Some(start) else None
  {
    var cutoff := points[i].time - d;
    if d >= 0 {
      if points[start].time < cutoff {
        LastBeforeUnique(points, start, cutoff);
      } else {
        LastBeforeIs(points, |points|, cutoff);
      }
    }
  }

  /** The rate loop over one series.  `moves` counts how often the window's start advances. */
  method RateSeries(points: seq<Sample>, d: int) returns (rates: seq<RatePoint>, ghost moves: nat)
    requires Sorted(points)
    ensures rates == NaiveRates(points, |points|, d)
    ensures points != [] ==> moves < |points|
  {
    hide PerSecond;
    rates, moves := [], 0;
    var startIdx := 0;
    for i := 0 to |points|
      invariant Behind(points, startIdx, i, d)
      invariant i == 0 ==> startIdx == 0
      invariant moves == startIdx && (i > 0 ==> startIdx < i)
      invariant rates == NaiveRates(points, i, d)
    {
      var rangeStart := points[i].time - d;
      WindowMoves(points, startIdx, i, d);
      while startIdx < i && points[startIdx + 1].time < rangeStart
        invariant startIdx <= i && moves == startIdx
        invariant startIdx == 0 || points[startIdx].time < rangeStart
      {
        startIdx := startIdx + 1;
        moves := moves + 1;
      }
      WindowFinds(points, startIdx, i, d);
      if startIdx < i && (points[startIdx].time < rangeStart || points[startIdx].time == rangeStart) {
        rates := rates + [RatePoint(points[i].time, PerSecond(points[i].value - points[startIdx].value, d))];
      }
    }
  }

  /* ---- increase ---- */

  /** Multiplying a quotient by the range again; zero times an infinity is undefined.  An
      infinity never meets a negative range, which has no rates at all. */
  function Times(q: Quotient, d: int): Quotient {
    match q
    case Finite(v) => Finite(v * Seconds(d))
    case Infinite => if d > 0 then Infinite else Undefined
    case Undefined => Undefined
  }

  function Scaled(rates: seq<RatePoint>, d: int): (r: seq<RatePoint>)
    ensures |r| == |rates|
    ensures forall i :: 0 <= i < |r| ==> r[i] == RatePoint(rates[i].time, Times(rates[i].value, d))
  {
    if rates == [] then []
    else Scaled(rates[..|rates| - 1], d) + [RatePoint(rates[|rates| - 1].time, Times(rates[|rates| - 1].value, d))]
  }

  /** `increase` scales the rates where they stand. */
  method ScaleInPlace(points: array<RatePoint>, d: int)
    modifies points
    ensures points[..] == Scaled(old(points[..]), d)
  {
    hide Times;
    for j := 0 to points.Length
      invariant forall k :: 0 <= k < j ==> points[k] == RatePoint(old(points[k]).time, Times(old(points[k]).value, d))
      invariant forall k :: j <= k < points.Length ==> points[k] == old(points[k])
    {
      points[j] := RatePoint(points[j].time, Times(points[j].value, d));
    }
  }

  method IncreaseSeries(points: seq<Sample>, d: int) returns (increases: array<RatePoint>)
    requires Sorted(points)
    ensures fresh(increases) && increases[..] == Scaled(NaiveRates(points, |points|, d), d)
  {
    var rates, _ := RateSeries(points, d);
    increases := new RatePoint[|rates|](i requires 0 <= i < |rates| => rates[i]);
    assert increases[..] == rates;
    ScaleInPlace(increases, d);
  }

  /** The increase of each point over its baseline, never negative. */
  function Increases(points: seq<Sample>, n: nat, d: int): seq<RatePoint>
    requires n <= |points|
  {
    if n == 0 then []
    else
      var rest, k := Increases(points, n - 1, d), Baseline(points, n - 1, d);
      if k == None || k.value >= |points| then rest
      else
        var delta := points[n - 1].value - points[k.value].value;
        rest + [RatePoint(points[n - 1].time, Finite(if delta < 0.0 then 0.0 else delta))]
  }

  lemma QuotientBack(delta: real, d: int)
    requires d > 0
    ensures Times(PerSecond(delta, d), d) == Finite(if delta < 0.0 then 0.0 else delta)
  {
    var s := Seconds(d);
    assert s > 0.0;
    var q := delta / s;
    assert q * s == delta;
    assert q < 0.0 <==> delta < 0.0;
  }

  /** For a positive range `increase` is the increase, at the points where `rate` has one. */
  lemma {:induction false} IncreaseIs(points: seq<Sample>, n: nat, d: int)
    requires d > 0 && n <= |points|
    ensures Scaled(NaiveRates(points, n, d), d) == Increases(points, n, d)
  {
    hide PerSecond, Times, Baseline;
    if n > 0 {
      IncreaseIs(points, n - 1, d);
      var k := Baseline(points, n - 1, d);
      if k.Some? && k.value < |points| { QuotientBack(points[n - 1].value - points[k.value].value, d); }
    }
  }

  /** A rate times its range in nanoseconds is the increase times the nanoseconds of a second. */
  lemma RateTimesRange(delta: real, d: int)
    requires d > 0
    ensures PerSecond(delta, d).Finite?
    ensures PerSecond(delta, d).value * d as real == (if delta < 0.0 then 0.0 else delta) * 1_000_000_000.0
  {
    var x := d as real;
    assert x > 0.0;
    RangeScaled(delta, x);
  }

  lemma RangeScaled(delta: real, x: real)
    requires x > 0.0
    ensures delta / (x / 1_000_000_000.0) * x == delta * 1_000_000_000.0
    ensures delta / (x / 1_000_000_000.0) < 0.0 <==> delta < 0.0
  {
    var s := x / 1_000_000_000.0;
    var q := delta / s;
    assert s > 0.0 && q * s == delta;
    assert x == s * 1_000_000_000.0;
    assert q * (s * 1_000_000_000.0) == q * s * 1_000_000_000.0;
    SignOfProduct(q, s);
  }

  lemma SignOfProduct(q: real, s: real)
    requires s > 0.0
    ensures q * s < 0.0 <==> q < 0.0
  {
  }

  /** A rate and a rise at one point: the rate times the range in nanoseconds is the rise times the
      nanoseconds of a second. */
  ghost predicate RisesPerSecond(r: RatePoint, x: RatePoint, d: int) {
    r.time == x.time && r.value.Finite? && x.value.Finite? && r.value.value * d as real == x.value.value * 1_000_000_000.0
  }

  lemma OneRise(time: int, delta: real, d: int)
    requires d > 0
    ensures RisesPerSecond(RatePoint(time, PerSecond(delta, d)), RatePoint(time, Finite(if delta < 0.0 then 0.0 else delta)), d)
  {
    hide PerSecond;
    RateTimesRange(delta, d);
  }

  /** A rate is a rise per second, at each point that has a baseline and at no other. */
  lemma {:induction false} RateIsPerSecond(points: seq<Sample>, n: nat, d: int)
    requires d > 0 && n <= |points|
    ensures |NaiveRates(points, n, d)| == |Increases(points, n, d)|
    ensures forall j :: 0 <= j < |Increases(points, n, d)| ==>
              RisesPerSecond(NaiveRates(points, n, d)[j], Increases(points, n, d)[j], d)
  {
    hide PerSecond, Baseline, RisesPerSecond;
    if n > 0 {
      RateIsPerSecond(points, n - 1, d);
      var k := Baseline(points, n - 1, d);
      if k.Some? && k.value < |points| { OneRise(points[n - 1].time, points[n - 1].value - points[k.value].value, d); }
    }
  }

  /** Sample `k` is what sample `i` is compared with: the last one before the range, or the first of
      all if it stands on the start of the range. */
  ghost predicate Compared(points: seq<Sample>, i: nat, k: nat, d: int) {
    && k < i < |points| && points[k].time <= points[i].time - d
    && (forall m :: k < m < |points| ==> points[m].time >= points[i].time - d)
    && (points[k].time == points[i].time - d ==> k == 0)
  }

  /** The rate of sample `i` over sample `k`. */
  ghost predicate RateAt(points: seq<Sample>, r: RatePoint, i: nat, k: nat, d: int)
    requires i < |points| && k < |points|
  {
    && r.time == points[i].time && r.value.Finite?
    && r.value.value * d as real ==
       (if points[i].value < points[k].value then 0.0 else points[i].value - points[k].value) * 1_000_000_000.0
  }

  lemma RateOver(points: seq<Sample>, i: nat, k: nat, d: int)
    requires i < |points| && k < |points| && d > 0
    ensures RateAt(points, RatePoint(points[i].time, PerSecond(points[i].value - points[k].value, d)), i, k, d)
  {
    hide PerSecond;
    RateTimesRange(points[i].value - points[k].value, d);
  }

  /** Each rate in full: the point it stands at, the point that is compared with, and its value. */
  lemma {:induction false} RateOfPoint(points: seq<Sample>, n: nat, d: int, j: nat) returns (i: nat, k: nat)
    requires Sorted(points) && d > 0 && n <= |points| && j < |NaiveRates(points, n, d)|
    ensures i < n && Compared(points, i, k, d) && RateAt(points, NaiveRates(points, n, d)[j], i, k, d)
  {
    hide PerSecond, Baseline, RateAt;
    if j < |NaiveRates(points, n - 1, d)| {
      i, k := RateOfPoint(points, n - 1, d, j);
    } else {
      i := n - 1;
      BaselineIs(points, i, d);
      k := Baseline(points, i, d).value;
      RateOver(points, i, k, d);
    }
  }

  /** A negative range, which an overflowing duration literal yields, has no rates. */
  lemma {:induction false} NegativeRangeIsEmpty(points: seq<Sample>, n: nat, d: int)
    requires d < 0 && n <= |points|
    ensures NaiveRates(points, n, d) == []
  {
    if n > 0 { NegativeRangeIsEmpty(points, n - 1, d); }
  }
}
