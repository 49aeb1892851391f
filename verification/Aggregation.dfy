/**
 Aggregation expressions over series (pkg/query/executor.go) and the laws of nesting them.
 */
module Aggregation {
  import opened Collections
  import opened Strings
  import opened Values
  import opened Grouping

  /* ---- the aggregation functions ---- */

  function SumOf(values: seq<Value>): Value {
    if values == [] then Number(0.0) else Plus(SumOf(values[..|values| - 1]), values[|values| - 1])
  }

  /** Undefined for no values; a comparison with an undefined value never replaces the
      maximum found so far. */
  function MaxOf(values: seq<Value>): Value {
    if values == [] then Undefined
    else if |values| == 1 then values[0]
    else
      var max, v := MaxOf(values[..|values| - 1]), values[|values| - 1];
      if Greater(v, max) then v else max
  }

  function MinOf(values: seq<Value>): Value {
    if values == [] then Undefined
    else if |values| == 1 then values[0]
    else
      var min, v := MinOf(values[..|values| - 1]), values[|values| - 1];
      if Greater(min, v) then v else min
  }

  function AvgOf(values: seq<Value>): Value {
    var sum := SumOf(values);
    if values == [] || sum.Undefined? then Undefined else Number(sum.value / |values| as real)
  }

  function Apply(op: string, values: seq<Value>): Value {
    if op == "sum" then SumOf(values)
    else if op == "avg" then AvgOf(values)
    else if op == "max" then MaxOf(values)
    else if op == "min" then MinOf(values)
    else if op == "count" then Number(|values| as real)
    else Undefined
  }

  method Sum(values: seq<Value>) returns (sum: Value)
    ensures sum == SumOf(values)
  {
    sum := Number(0.0);
    for i := 0 to |values|
      invariant sum == SumOf(values[..i])
    {
      assert values[..i + 1][..i] == values[..i];
      sum := Plus(sum, values[i]);
    }
    assert values[..|values|] == values;
  }

  method Avg(values: seq<Value>) returns (avg: Value)
    ensures avg == AvgOf(values)
  {
    if |values| == 0 { return Undefined; }
    var sum := Sum(values);
    avg := if sum.Undefined? then Undefined else Number(sum.value / |values| as real);
  }

  method Max(values: seq<Value>) returns (max: Value)
    ensures max == MaxOf(values)
  {
    if |values| == 0 { return Undefined; }
    max := values[0];
    for i := 1 to |values|
      invariant max == MaxOf(values[..i])
    {
      assert values[..i + 1][..i] == values[..i];
      if Greater(values[i], max) { max := values[i]; }
    }
    assert values[..|values|] == values;
  }

  method Min(values: seq<Value>) returns (min: Value)
    ensures min == MinOf(values)
  {
    if |values| == 0 { return Undefined; }
    min := values[0];
    for i := 1 to |values|
      invariant min == MinOf(values[..i])
    {
      assert values[..i + 1][..i] == values[..i];
      if Greater(min, values[i]) { min := values[i]; }
    }
    assert values[..|values|] == values;
  }

  method AggregateValues(op: string, values: seq<Value>) returns (r: Value)
    ensures r == Apply(op, values)
  {
    if op == "sum" { r := Sum(values); }
    else if op == "avg" { r := Avg(values); }
    else if op == "max" { r := Max(values); }
    else if op == "min" { r := Min(values); }
    else if op == "count" { r := Number(|values| as real); }
    else { r := Undefined; }
  }

  ghost predicate Numbers(values: seq<Value>) { forall i :: 0 <= i < |values| ==> values[i].Number? }

  /** The maximum of numbers is one of them and none exceeds it. */
  lemma {:induction false} MaxIs(values: seq<Value>)
    requires Numbers(values) && values != []
    ensures MaxOf(values).Number? && MaxOf(values) in values
    ensures forall i :: 0 <= i < |values| ==> values[i].value <= MaxOf(values).value
  {
    if |values| > 1 { MaxIs(values[..|values| - 1]); }
  }

  lemma {:induction false} MinIs(values: seq<Value>)
    requires Numbers(values) && values != []
    ensures MinOf(values).Number? && MinOf(values) in values
    ensures forall i :: 0 <= i < |values| ==> values[i].value >= MinOf(values).value
  {
    if |values| > 1 { MinIs(values[..|values| - 1]); }
  }

  /** An undefined value is never replaced and replaces none: the extremes are undefined exactly
      when the first value is, so they depend on the order. */
  lemma {:induction false} ExtremesUndefined(values: seq<Value>)
    requires values != []
    ensures MaxOf(values).Undefined? <==> values[0].Undefined?
    ensures MinOf(values).Undefined? <==> values[0].Undefined?
  {
    if |values| > 1 { ExtremesUndefined(values[..|values| - 1]); }
  }

  /** A sum is undefined exactly when a value is. */
  lemma {:induction false} SumDefined(values: seq<Value>)
    ensures SumOf(values).Number? <==> Numbers(values)
  {
    if values != [] {
      var n := |values| - 1;
      SumDefined(values[..n]);
      assert Numbers(values) <==> Numbers(values[..n]) && values[n].Number?;
    }
  }

  /** `n` times `x`. */
  function Times(x: real, n: nat): real { x * n as real }

  lemma TimesNext(x: real, n: nat)
    ensures Times(x, 0) == 0.0 && Times(x, n + 1) == Times(x, n) + x
  {
  }

  lemma Divided(x: real, n: nat)
    requires n > 0
    ensures Times(x / n as real, n) == x
  {
  }

  lemma TimesOrders(x: real, y: real, n: nat)
    requires n > 0 && Times(x, n) <= Times(y, n)
    ensures x <= y
  {
    if x > y { Positive(x - y, n as real); }
  }

  lemma Positive(a: real, b: real)
    requires a > 0.0 && b > 0.0
    ensures a * b > 0.0
  {
  }

  lemma {:induction false} SumBounds(values: seq<Value>, low: real, high: real)
    requires Numbers(values) && forall i :: 0 <= i < |values| ==> low <= values[i].value <= high
    ensures SumOf(values).Number? && Times(low, |values|) <= SumOf(values).value <= Times(high, |values|)
  {
    hide Times;
    SumDefined(values);
    var n := |values| - 1;
    if values == [] {
      TimesNext(low, 0);
      TimesNext(high, 0);
    } else {
      SumBounds(values[..n], low, high);
      TimesNext(low, n);
      TimesNext(high, n);
    }
  }

  /** The average is defined exactly for some values that are all numbers, and times their count
      it is their sum. */
  lemma {:induction false} AverageIs(values: seq<Value>)
    ensures AvgOf(values).Number? <==> values != [] && Numbers(values)
    ensures AvgOf(values).Number? ==>
              SumOf(values).Number? && Times(AvgOf(values).value, |values|) == SumOf(values).value
  {
    hide SumOf, Numbers, Times;
    SumDefined(values);
    if values != [] && Numbers(values) { Divided(SumOf(values).value, |values|); }
  }

  /** The average lies between the extremes. */
  lemma {:induction false} AverageBetween(values: seq<Value>)
    requires Numbers(values) && values != []
    ensures AvgOf(values).Number? && MinOf(values).Number? && MaxOf(values).Number?
    ensures MinOf(values).value <= AvgOf(values).value <= MaxOf(values).value
  {
    hide AvgOf, MinOf, MaxOf, SumOf, Times;
    MinIs(values);
    MaxIs(values);
    AverageIs(values);
    var low, avg, high := MinOf(values).value, AvgOf(values).value, MaxOf(values).value;
    SumBounds(values, low, high);
    TimesOrders(low, avg, |values|);
    TimesOrders(avg, high, |values|);
  }

  lemma {:induction false} SumAppend(a: seq<Value>, b: seq<Value>)
    ensures SumOf(a + b) == Plus(SumOf(a), SumOf(b))
    decreases |b|
  {
    if b == [] {
      assert a + b == a;
    } else {
      assert (a + b)[..|a + b| - 1] == a + b[..|b| - 1];
      SumAppend(a, b[..|b| - 1]);
    }
  }

  lemma {:induction false} SumPermutes(x: seq<Value>, y: seq<Value>)
    requires multiset(x) == multiset(y)
    ensures SumOf(x) == SumOf(y)
    decreases |x|
  {
    hide Without, SumOf;
    if x == [] {
      NoElements(x, y);
    } else {
      var i := TakeOut(x, y);
      SumPermutes(Without(x, |x| - 1), Without(y, i));
      SumWithout(x, |x| - 1);
      SumWithout(y, i);
    }
  }

  lemma {:induction false} SumWithout(y: seq<Value>, i: nat)
    requires i < |y|
    ensures SumOf(y) == Plus(SumOf(Without(y, i)), y[i])
  {
    hide SumOf, Without;
    var a, b := y[..i], y[i + 1..];
    WithoutIs(y, i);
    SumAppend(a + [y[i]], b);
    SumAppend(a, b);
    SumLast(a, y[i]);
  }

  lemma SumLast(a: seq<Value>, v: Value)
    ensures SumOf(a + [v]) == Plus(SumOf(a), v)
  {
    assert (a + [v])[..|a|] == a;
  }

  /* ---- values at an instant ---- */

  function ValuesAt(series: seq<TimeSeries>, t: int): seq<Value> {
    if series == [] then []
    else ValuesAt(series[..|series| - 1], t) + At(series[|series| - 1].points, t)
  }

  lemma {:induction false} ValuesAppend(a: seq<TimeSeries>, b: seq<TimeSeries>, t: int)
    ensures ValuesAt(a + b, t) == ValuesAt(a, t) + ValuesAt(b, t)
    decreases |b|
  {
    if b == [] {
      assert a + b == a;
    } else {
      assert (a + b)[..|a + b| - 1] == a + b[..|b| - 1];
      ValuesAppend(a, b[..|b| - 1], t);
    }
  }

  lemma {:induction false} ValuesPermute(x: seq<TimeSeries>, y: seq<TimeSeries>, t: int)
    requires multiset(x) == multiset(y)
    ensures multiset(ValuesAt(x, t)) == multiset(ValuesAt(y, t))
    decreases |x|
  {
    hide Without, ValuesAt, At;
    if x == [] {
      NoElements(x, y);
    } else {
      var i := TakeOut(x, y);
      ValuesPermute(Without(x, |x| - 1), Without(y, i), t);
      ValuesWithout(x, |x| - 1, t);
      ValuesWithout(y, i, t);
    }
  }

  lemma ValuesWithout(y: seq<TimeSeries>, i: nat, t: int)
    requires i < |y|
    ensures multiset(ValuesAt(y, t)) == multiset(ValuesAt(Without(y, i), t)) + multiset(At(y[i].points, t))
  {
    hide At;
    var a, b := y[..i], y[i + 1..];
    WithoutIs(y, i);
    ValuesAppend(a + [y[i]], b, t);
    ValuesAppend(a, b, t);
    assert (a + [y[i]])[..i] == a;
  }

  /** The aggregate of a group: at each instant of a member, the aggregated values there. */
  ghost predicate AggregatedPoints(points: seq<Point>, series: seq<TimeSeries>, op: string) {
    && Increasing(points)
    && forall t :: At(points, t) == AggregateAt(series, op, t)
  }

  function AggregateAt(series: seq<TimeSeries>, op: string, t: int): seq<Value> {
    var values := ValuesAt(series, t);
    if values == [] then [] else [Apply(op, values)]
  }

  ghost predicate HasTime(points: seq<Point>, t: int) { exists i :: 0 <= i < |points| && points[i].time == t }

  lemma {:induction false} NoValues(series: seq<TimeSeries>, t: int)
    ensures ValuesAt(series, t) == [] <==> forall i :: 0 <= i < |series| ==> !HasTime(series[i].points, t)
  {
    if series != [] {
      NoValues(series[..|series| - 1], t);
      AtNothing(series[|series| - 1].points, t);
    }
  }

  /** The instants of the result are the union of the members' instants. */
  lemma TimesAreUnion(points: seq<Point>, series: seq<TimeSeries>, op: string, t: int)
    requires AggregatedPoints(points, series, op)
    ensures HasTime(points, t) <==> exists i :: 0 <= i < |series| && HasTime(series[i].points, t)
  {
    hide At, ValuesAt, Apply;
    AtNothing(points, t);
    NoValues(series, t);
    assert At(points, t) == AggregateAt(series, op, t);
  }

  /* ---- the loops ---- */

  type TimeMap = map<int, seq<Value>>

  function Get(m: TimeMap, t: int): seq<Value> { if t in m then m[t] else [] }

  ghost predicate Collected(m: TimeMap, series: seq<TimeSeries>, points: seq<Point>) {
    forall t :: Get(m, t) == ValuesAt(series, t) + At(points, t) && (t in m ==> m[t] != [])
  }

  lemma CollectNothing()
    ensures Collected(map[], [], [])
  {
  }

  lemma CollectPoint(m: TimeMap, series: seq<TimeSeries>, points: seq<Point>, p: Point)
    requires Collected(m, series, points)
    ensures Collected(m[p.time := Get(m, p.time) + [p.value]], series, points + [p])
  {
    hide ValuesAt;
    var m' := m[p.time := Get(m, p.time) + [p.value]];
    assert (points + [p])[..|points|] == points;
    forall t ensures Get(m', t) == ValuesAt(series, t) + At(points + [p], t) && (t in m' ==> m'[t] != []) {
      assert Get(m, t) == ValuesAt(series, t) + At(points, t);
    }
  }

  lemma CollectSeries(m: TimeMap, series: seq<TimeSeries>, s: TimeSeries)
    requires Collected(m, series, s.points)
    ensures Collected(m, series + [s], [])
  {
    assert (series + [s])[..|series|] == series;
    forall t ensures Get(m, t) == ValuesAt(series + [s], t) + At([], t) && (t in m ==> m[t] != []) {
      assert Get(m, t) == ValuesAt(series, t) + At(s.points, t);
    }
  }

  /** Collecting the values of every instant. */
  method CollectTimes(series: seq<TimeSeries>) returns (timeMap: TimeMap)
    ensures Collected(timeMap, series, [])
  {
    hide Collected;
    timeMap := map[];
    CollectNothing();
    for i := 0 to |series|
      invariant Collected(timeMap, series[..i], [])
    {
      var points := series[i].points;
      for j := 0 to |points|
        invariant Collected(timeMap, series[..i], points[..j])
      {
        var p := points[j];
        CollectPoint(timeMap, series[..i], points[..j], p);
        assert points[..j] + [p] == points[..j + 1];
        timeMap := timeMap[p.time := Get(timeMap, p.time) + [p.value]];
      }
      assert points[..|points|] == points;
      CollectSeries(timeMap, series[..i], series[i]);
      assert series[..i] + [series[i]] == series[..i + 1];
    }
    assert series[..|series|] == series;
  }

  lemma {:induction false} AtInserted(r: seq<Point>, i: nat, p: Point, t: int)
    requires i <= |r| && At(r, p.time) == []
    ensures At(r[..i] + [p] + r[i..], t) == if t == p.time then [p.value] else At(r, t)
    decreases |r|
  {
    var r' := r[..i] + [p] + r[i..];
    if i == |r| {
      assert r' == r + [p] && r'[..|r|] == r;
    } else {
      var front := r[..|r| - 1];
      assert front[..i] + [p] + front[i..] == r'[..|r'| - 1];
      AtInserted(front, i, p, t);
    }
  }

  /** Where a point belongs in time order. */
  ghost predicate Belongs(r: seq<Point>, i: nat, p: Point) {
    i <= |r| && (forall j :: 0 <= j < i ==> r[j].time < p.time) && (i < |r| ==> r[i].time >= p.time)
  }

  lemma InsertedAt(r: seq<Point>, i: nat, p: Point)
    requires Increasing(r) && At(r, p.time) == [] && Belongs(r, i, p)
    ensures Increasing(r[..i] + [p] + r[i..])
    ensures forall t :: At(r[..i] + [p] + r[i..], t) == if t == p.time then [p.value] else At(r, t)
  {
    hide At;
    AtNothing(r, p.time);
    forall t ensures At(r[..i] + [p] + r[i..], t) == if t == p.time then [p.value] else At(r, t) { AtInserted(r, i, p, t); }
  }

  /** `sort.Slice` by time on points with distinct times, as an insertion sort. */
  method InsertByTime(r: seq<Point>, p: Point) returns (r': seq<Point>)
    requires Increasing(r) && At(r, p.time) == []
    ensures Increasing(r') && forall t :: At(r', t) == if t == p.time then [p.value] else At(r, t)
  {
    hide At;
    var i := 0;
    while i < |r| && r[i].time < p.time
      invariant 0 <= i <= |r| && forall j :: 0 <= j < i ==> r[j].time < p.time
    {
      i := i + 1;
    }
    r' := r[..i] + [p] + r[i..];
    InsertedAt(r, i, p);
  }

  /** The points of the instants gone through so far. */
  ghost predicate Emitted(points: seq<Point>, timeMap: TimeMap, left: set<int>, op: string) {
    && Increasing(points)
    && forall t :: At(points, t) == if t in timeMap && t !in left then [Apply(op, timeMap[t])] else []
  }

  lemma EmitFirst(timeMap: TimeMap, op: string)
    ensures Emitted([], timeMap, timeMap.Keys, op)
  {
  }

  lemma EmitAll(points: seq<Point>, timeMap: TimeMap, series: seq<TimeSeries>, op: string)
    requires Collected(timeMap, series, []) && Emitted(points, timeMap, {}, op)
    ensures AggregatedPoints(points, series, op)
  {
    hide Apply, ValuesAt;
    forall t ensures At(points, t) == AggregateAt(series, op, t) {
      assert Get(timeMap, t) == ValuesAt(series, t) + At([], t);
      assert ValuesAt(series, t) + [] == ValuesAt(series, t);
    }
  }

  lemma Inhabited(s: set<int>)
    requires s != {}
    ensures exists t :: t in s
  {
    assert (forall t :: t !in s) ==> s <= {};
  }

  /** One more instant. */
  method Emit(points: seq<Point>, timeMap: TimeMap, ghost left: set<int>, op: string, t: int) returns (r: seq<Point>)
    requires Emitted(points, timeMap, left, op) && t in timeMap && t in left
    ensures Emitted(r, timeMap, left - {t}, op)
  {
    hide At, Apply;
    var value := AggregateValues(op, timeMap[t]);
    r := InsertByTime(points, Point(t, value));
  }

  /** `aggregate`: one point for each instant, in time order. */
  method AggregateGroup(series: seq<TimeSeries>, op: string) returns (points: seq<Point>)
    ensures AggregatedPoints(points, series, op)
  {
    hide AggregatedPoints, Collected, Emitted;
    var timeMap := CollectTimes(series);
    EmitFirst(timeMap, op);
    points := [];
    var left := timeMap.Keys;
    while left != {}
      invariant left <= timeMap.Keys && Emitted(points, timeMap, left, op)
      decreases |left|
    {
      Inhabited(left);
      var t :| t in left;
      points := Emit(points, timeMap, left, op, t);
      left := left - {t};
    }
    EmitAll(points, timeMap, series, op);
  }

  /** The result of an aggregation: a series for each group, in the order of `ks`. */
  ghost predicate AggregatedBy(ks: seq<string>, result: seq<TimeSeries>, series: seq<TimeSeries>, op: string,
                               grouping: seq<string>, without: bool)
  {
    var groups := Groups(series, grouping, without);
    && KeysOf(ks, groups) && |result| == |ks|
    && forall i :: 0 <= i < |ks| ==>
         result[i].labels == groups[ks[i]].labels && AggregatedPoints(result[i].points, groups[ks[i]].series, op)
  }

  ghost predicate IsAggregation(result: seq<TimeSeries>, series: seq<TimeSeries>, op: string,
                                grouping: seq<string>, without: bool)
  {
    exists ks :: AggregatedBy(ks, result, series, op, grouping, without)
  }

  /** `executeAggregateExpr` on the inner result. */
  method ExecuteAggregate(series: seq<TimeSeries>, op: string, grouping: array<string>, without: bool)
      returns (result: seq<TimeSeries>)
    modifies grouping
    ensures IsAggregation(result, series, op, old(grouping[..]), without)
    ensures SameGrouping(grouping[..], old(grouping[..]))
  {
    var groups := GroupSeries(series, grouping, without);
    result := AggregateGroups(groups, op, series, old(grouping[..]), without);
  }

  /** The loop over the groups. */
  method AggregateGroups(groups: GroupMap, op: string, ghost series: seq<TimeSeries>, ghost grouping: seq<string>, ghost without: bool)
      returns (result: seq<TimeSeries>)
    requires groups == Groups(series, grouping, without)
    ensures IsAggregation(result, series, op, grouping, without)
  {
    hide AggregatedPoints, Groups;
    result := [];
    ghost var ks: seq<string> := [];
    var left := groups.Keys;
    while left != {}
      invariant left <= groups.Keys && |result| == |ks|
      invariant forall i, j :: 0 <= i < j < |ks| ==> ks[i] != ks[j]
      invariant forall k :: k in ks <==> k in groups && k !in left
      invariant forall i :: 0 <= i < |ks| ==>
                  result[i].labels == groups[ks[i]].labels && AggregatedPoints(result[i].points, groups[ks[i]].series, op)
      decreases |left|
    {
      var k :| k in left;
      var points := AggregateGroup(groups[k].series, op);
      result := result + [TimeSeries(groups[k].labels, points)];
      ks := ks + [k];
      left := left - {k};
    }
    assert AggregatedBy(ks, result, series, op, grouping, without);
  }

  /* ---- what the operations mean ---- */

  /** The sum in the arithmetic of the reals. */
  function RealSum(values: seq<Value>): real
    requires forall i :: 0 <= i < |values| ==> values[i].Number?
  {
    if values == [] then 0.0 else RealSum(values[..|values| - 1]) + values[|values| - 1].value
  }

  lemma {:induction false} SumIsReal(values: seq<Value>)
    requires Numbers(values)
    ensures SumOf(values) == Number(RealSum(values))
  {
    if values != [] { SumIsReal(values[..|values| - 1]); }
  }

  /** The value of a group at an instant, by the name of the operation; an unknown name yields an
      undefined value. */
  lemma {:induction false} AggregateMeans(points: seq<Point>, series: seq<TimeSeries>, op: string, t: int)
    requires AggregatedPoints(points, series, op)
    ensures ValuesAt(series, t) == [] ==> At(points, t) == []
    ensures var values := ValuesAt(series, t); values != [] ==> |At(points, t)| == 1 && Means(op, values, At(points, t)[0])
  {
    hide At, ValuesAt, Means;
    assert At(points, t) == AggregateAt(series, op, t);
    var values := ValuesAt(series, t);
    if values != [] { OperationMeans(op, values); }
  }

  ghost predicate Means(op: string, values: seq<Value>, x: Value)
    requires values != []
  {
    && (op == "count" ==> x == Number(|values| as real))
    && ((forall i :: 0 <= i < |values| ==> values[i].Number?) ==>
          && (op == "sum" ==> x == Number(RealSum(values)))
          && (op == "avg" ==> x == Number(RealSum(values) / |values| as real))
          && (op == "max" ==> x in values && forall i :: 0 <= i < |values| ==> values[i].value <= x.value)
          && (op == "min" ==> x in values && forall i :: 0 <= i < |values| ==> values[i].value >= x.value))
    && ((exists i :: 0 <= i < |values| && values[i].Undefined?) ==> (op == "sum" || op == "avg" ==> x == Undefined))
    && (op !in {"sum", "avg", "max", "min", "count"} ==> x == Undefined)
  }

  lemma OperationMeans(op: string, values: seq<Value>)
    requires values != []
    ensures Means(op, values, Apply(op, values))
  {
    hide SumOf, MaxOf, MinOf, RealSum;
    SumDefined(values);
    if Numbers(values) {
      SumIsReal(values);
      MaxIs(values);
      MinIs(values);
    }
  }

  /* ---- every aggregation has a result ---- */

  lemma {:induction false} PlaceExists(r: seq<Point>, p: Point) returns (i: nat)
    requires Increasing(r)
    ensures Belongs(r, i, p)
    decreases |r|
  {
    if r == [] || r[|r| - 1].time < p.time {
      i := |r|;
    } else {
      i := PlaceExists(r[..|r| - 1], p);
    }
  }

  lemma {:induction false} TimesExist(series: seq<TimeSeries>, points: seq<Point>) returns (m: TimeMap)
    ensures Collected(m, series, points)
    decreases |series|, |points|
  {
    hide Collected;
    if points != [] {
      var n := |points| - 1;
      m := TimesExist(series, points[..n]);
      CollectPoint(m, series, points[..n], points[n]);
      assert points[..n] + [points[n]] == points;
      m := m[points[n].time := Get(m, points[n].time) + [points[n].value]];
    } else if series != [] {
      var n := |series| - 1;
      m := TimesExist(series[..n], series[n].points);
      CollectSeries(m, series[..n], series[n]);
      assert series[..n] + [series[n]] == series;
    } else {
      m := map[];
      CollectNothing();
    }
  }

  lemma {:induction false} EmittedExists(timeMap: TimeMap, left: set<int>, op: string) returns (points: seq<Point>)
    requires left <= timeMap.Keys
    ensures Emitted(points, timeMap, left, op)
    decreases |timeMap.Keys - left|
  {
    hide Apply, At;
    var rest := timeMap.Keys - left;
    if rest == {} {
      assert left == timeMap.Keys;
      points := [];
      EmitFirst(timeMap, op);
    } else {
      Inhabited(rest);
      var t :| t in rest;
      assert timeMap.Keys - (left + {t}) == rest - {t};
      var front := EmittedExists(timeMap, left + {t}, op);
      var i := PlaceExists(front, Point(t, Apply(op, timeMap[t])));
      InsertedAt(front, i, Point(t, Apply(op, timeMap[t])));
      points := front[..i] + [Point(t, Apply(op, timeMap[t]))] + front[i..];
    }
  }

  lemma {:induction false} PointsExist(series: seq<TimeSeries>, op: string) returns (points: seq<Point>)
    ensures AggregatedPoints(points, series, op)
  {
    hide Collected, Emitted, AggregatedPoints;
    var timeMap := TimesExist(series, []);
    points := EmittedExists(timeMap, {}, op);
    EmitAll(points, timeMap, series, op);
  }

  lemma {:induction false} AggregatesExist(ks: seq<string>, groups: GroupMap, op: string) returns (result: seq<TimeSeries>)
    requires forall i :: 0 <= i < |ks| ==> ks[i] in groups
    ensures |result| == |ks|
    ensures forall i :: 0 <= i < |ks| ==>
              result[i].labels == groups[ks[i]].labels && AggregatedPoints(result[i].points, groups[ks[i]].series, op)
  {
    hide AggregatedPoints;
    if ks == [] {
      result := [];
    } else {
      var n := |ks| - 1;
      var front := AggregatesExist(ks[..n], groups, op);
      var points := PointsExist(groups[ks[n]].series, op);
      result := front + [TimeSeries(groups[ks[n]].labels, points)];
    }
  }

  lemma {:induction false} AggregationExists(series: seq<TimeSeries>, op: string, grouping: seq<string>, without: bool)
      returns (result: seq<TimeSeries>)
    ensures IsAggregation(result, series, op, grouping, without)
  {
    hide AggregatedPoints, Groups;
    var groups := Groups(series, grouping, without);
    var ks := Sorted(groups.Keys);
    SortedKeysOf(ks, groups);
    result := AggregatesExist(ks, groups, op);
    assert AggregatedBy(ks, result, series, op, grouping, without);
  }

  lemma SortedKeysOf(ks: seq<string>, groups: GroupMap)
    requires Ascending(ks) && Elements(ks) == groups.Keys
    ensures KeysOf(ks, groups)
  {
    forall i, j | 0 <= i < j < |ks| ensures ks[i] != ks[j] { BelowIrreflexive(ks[i], ks[j]); }
    forall k ensures k in ks <==> k in groups { assert k in ks <==> k in Elements(ks); }
  }

  /* ---- nesting ---- */

  ghost function Parts(ks: seq<string>, series: seq<TimeSeries>, grouping: seq<string>, without: bool, t: int): (parts: seq<seq<Value>>)
    ensures |parts| == |ks|
  {
    if ks == [] then []
    else Parts(ks[..|ks| - 1], series, grouping, without, t) + [ValuesAt(Members(series, grouping, without, ks[|ks| - 1]), t)]
  }

  function Concat(parts: seq<seq<Value>>): seq<Value> {
    if parts == [] then [] else Concat(parts[..|parts| - 1]) + parts[|parts| - 1]
  }

  /** The aggregates of the parts that are not empty. */
  function Folded(parts: seq<seq<Value>>, op: string): seq<Value> {
    if parts == [] then []
    else
      var rest, last := Folded(parts[..|parts| - 1], op), parts[|parts| - 1];
      if last == [] then rest else rest + [Apply(op, last)]
  }

  lemma {:induction false} PartsOfGathered(ks: seq<string>, series: seq<TimeSeries>, grouping: seq<string>, without: bool, t: int)
    ensures Concat(Parts(ks, series, grouping, without, t)) == ValuesAt(Gathered(ks, series, grouping, without), t)
  {
    hide Members, ValuesAt;
    NoValues([], t);
    if ks != [] {
      var front := ks[..|ks| - 1];
      PartsOfGathered(front, series, grouping, without, t);
      ValuesAppend(Gathered(front, series, grouping, without), Members(series, grouping, without, ks[|ks| - 1]), t);
      var parts := Parts(ks, series, grouping, without, t);
      assert parts[..|parts| - 1] == Parts(front, series, grouping, without, t);
    }
  }

  /** What the aggregates of the groups hold at an instant. */
  lemma {:induction false} FoldedParts(ks: seq<string>, inner: seq<TimeSeries>, series: seq<TimeSeries>, op: string,
                                       grouping: seq<string>, without: bool, t: int)
    requires |inner| == |ks|
    requires forall i :: 0 <= i < |ks| ==> AggregatedPoints(inner[i].points, Members(series, grouping, without, ks[i]), op)
    ensures ValuesAt(inner, t) == Folded(Parts(ks, series, grouping, without, t), op)
    decreases |ks|
  {
    hide Members, At, Apply;
    if ks != [] {
      var front := ks[..|ks| - 1];
      FoldedParts(front, inner[..|inner| - 1], series, op, grouping, without, t);
      var parts := Parts(ks, series, grouping, without, t);
      assert parts[..|parts| - 1] == Parts(front, series, grouping, without, t);
      assert At(inner[|ks| - 1].points, t) == AggregateAt(Members(series, grouping, without, ks[|ks| - 1]), op, t);
    }
  }

  /** The aggregations whose outer form over the inner one gives the direct one. */
  predicate Nests(outer: string, inner: string, direct: string) {
    || (outer == "sum" && inner == "sum" && direct == "sum")
    || (outer == "sum" && inner == "count" && direct == "count")
    || (outer == "max" && inner == "max" && direct == "max")
    || (outer == "min" && inner == "min" && direct == "min")
  }

  lemma {:induction false} SumOfSums(parts: seq<seq<Value>>)
    ensures SumOf(Folded(parts, "sum")) == SumOf(Concat(parts))
  {
    if parts != [] {
      var front := parts[..|parts| - 1];
      SumOfSums(front);
      var rest, last := Folded(front, "sum"), parts[|parts| - 1];
      SumAppend(Concat(front), last);
      assert (rest + [SumOf(last)])[..|rest|] == rest;
    }
  }

  lemma {:induction false} SumOfCounts(parts: seq<seq<Value>>)
    ensures SumOf(Folded(parts, "count")) == Number(|Concat(parts)| as real)
  {
    if parts != [] {
      var front := parts[..|parts| - 1];
      SumOfCounts(front);
      var rest, last := Folded(front, "count"), parts[|parts| - 1];
      assert (rest + [Number(|last| as real)])[..|rest|] == rest;
    }
  }

  function Larger(a: Value, b: Value): Value { if Greater(b, a) then b else a }
  function Smaller(a: Value, b: Value): Value { if Greater(a, b) then b else a }

  lemma {:induction false} ExtremesAppend(a: seq<Value>, b: seq<Value>)
    requires Numbers(a) && Numbers(b) && a != [] && b != []
    ensures MaxOf(a + b) == Larger(MaxOf(a), MaxOf(b)) && MinOf(a + b) == Smaller(MinOf(a), MinOf(b))
    decreases |b|
  {
    var front := b[..|b| - 1];
    assert (a + b)[..|a + b| - 1] == a + front;
    MaxIs(a);
    MinIs(a);
    if front == [] {
      assert a + front == a;
    } else {
      ExtremesAppend(a, front);
      MaxIs(front);
      MinIs(front);
    }
  }

  lemma {:induction false} ConcatNumbers(parts: seq<seq<Value>>)
    requires parts != [] && Numbers(Concat(parts))
    ensures Numbers(Concat(parts[..|parts| - 1])) && Numbers(parts[|parts| - 1])
  {
    var front, last := Concat(parts[..|parts| - 1]), parts[|parts| - 1];
    forall i | 0 <= i < |front| ensures front[i].Number? { assert Concat(parts)[i] == front[i]; }
    forall i | 0 <= i < |last| ensures last[i].Number? { assert Concat(parts)[|front| + i] == last[i]; }
  }

  /** One more part on both sides of the law. */
  lemma {:induction false} ExtremesStep(folded: seq<Value>, concat: seq<Value>, last: seq<Value>)
    requires Numbers(folded) && Numbers(concat) && Numbers(last) && last != []
    requires folded == [] <==> concat == []
    ensures folded != [] && MaxOf(folded) == MaxOf(concat) ==> MaxOf(folded + [MaxOf(last)]) == MaxOf(concat + last)
    ensures folded != [] && MinOf(folded) == MinOf(concat) ==> MinOf(folded + [MinOf(last)]) == MinOf(concat + last)
    ensures folded == [] ==> folded + [MaxOf(last)] == [MaxOf(last)] && folded + [MinOf(last)] == [MinOf(last)] && concat + last == last
  {
    hide MaxOf, MinOf;
    MaxIs(last);
    MinIs(last);
    if folded != [] {
      One(MaxOf(last));
      One(MinOf(last));
      ExtremesAppend(folded, [MaxOf(last)]);
      ExtremesAppend(folded, [MinOf(last)]);
      ExtremesAppend(concat, last);
    }
  }

  lemma One(v: Value)
    ensures MaxOf([v]) == v && MinOf([v]) == v
  {
  }

  lemma {:induction false} MaxOfMaxima(parts: seq<seq<Value>>)
    requires Numbers(Concat(parts))
    ensures Numbers(Folded(parts, "max")) && MaxOf(Folded(parts, "max")) == MaxOf(Concat(parts))
  {
    hide MaxOf, MinOf;
    if parts != [] {
      var front, last := parts[..|parts| - 1], parts[|parts| - 1];
      ConcatNumbers(parts);
      MaxOfMaxima(front);
      FoldedNothing(front, "max");
      if last == [] {
        assert Concat(front) + last == Concat(front);
      } else {
        MaxIs(last);
        One(MaxOf(last));
        ExtremesStep(Folded(front, "max"), Concat(front), last);
      }
    }
  }

  lemma {:induction false} MinOfMinima(parts: seq<seq<Value>>)
    requires Numbers(Concat(parts))
    ensures Numbers(Folded(parts, "min")) && MinOf(Folded(parts, "min")) == MinOf(Concat(parts))
  {
    hide MaxOf, MinOf;
    if parts != [] {
      var front, last := parts[..|parts| - 1], parts[|parts| - 1];
      ConcatNumbers(parts);
      MinOfMinima(front);
      FoldedNothing(front, "min");
      if last == [] {
        assert Concat(front) + last == Concat(front);
      } else {
        MinIs(last);
        One(MinOf(last));
        ExtremesStep(Folded(front, "min"), Concat(front), last);
      }
    }
  }

  lemma ExtremesPermute(x: seq<Value>, y: seq<Value>)
    requires multiset(x) == multiset(y) && Numbers(x)
    ensures MaxOf(x) == MaxOf(y) && MinOf(x) == MinOf(y)
  {
    hide MaxOf, MinOf;
    if x == [] {
      assert |multiset(y)| == 0;
      assert x == y;
    } else {
      assert x[0] in multiset(y);
      forall i | 0 <= i < |y| ensures y[i].Number? && y[i] in x { assert y[i] in multiset(x); }
      forall v | v in x ensures v in y { assert v in multiset(y); }
      MaxIs(x);
      MaxIs(y);
      MinIs(x);
      MinIs(y);
    }
  }

  /** Aggregating the groups' aggregates gives what aggregating all the values gives. */
  lemma NestedValues(parts: seq<seq<Value>>, all: seq<Value>, outer: string, inner: string, direct: string)
    requires Nests(outer, inner, direct) && multiset(Concat(parts)) == multiset(all)
    requires outer != "sum" ==> Numbers(all)
    ensures Folded(parts, inner) == [] <==> all == []
    ensures all != [] ==> Apply(outer, Folded(parts, inner)) == Apply(direct, all)
  {
    hide SumOf, MaxOf, MinOf, Folded, Concat;
    FoldedNothing(parts, inner);
    NoElements(Concat(parts), all);
    if all != [] {
      assert |Concat(parts)| == |multiset(all)| == |all|;
      if outer == "sum" {
        SumOfSums(parts);
        SumOfCounts(parts);
        SumPermutes(Concat(parts), all);
      } else {
        forall i | 0 <= i < |Concat(parts)| ensures Concat(parts)[i].Number? { assert Concat(parts)[i] in multiset(all); }
        ExtremesPermute(Concat(parts), all);
        MaxOfMaxima(parts);
        MinOfMinima(parts);
      }
    }
  }

  lemma NoElements<T>(x: seq<T>, y: seq<T>)
    requires multiset(x) == multiset(y)
    ensures x == [] <==> y == []
  {
    assert |multiset(x)| == |x| && |multiset(y)| == |y|;
  }

  lemma {:induction false} FoldedNothing(parts: seq<seq<Value>>, op: string)
    ensures Folded(parts, op) == [] <==> Concat(parts) == []
  {
    hide Apply;
    if parts != [] { FoldedNothing(parts[..|parts| - 1], op); }
  }

  ghost predicate AllNumbers(series: seq<TimeSeries>) {
    forall t :: Numbers(ValuesAt(series, t))
  }

  /** The groups of an aggregation and the instants inside them. */
  lemma GroupMembers(ks: seq<string>, result: seq<TimeSeries>, series: seq<TimeSeries>, op: string,
                     grouping: seq<string>, without: bool)
    requires AggregatedBy(ks, result, series, op, grouping, without)
    ensures forall i :: 0 <= i < |ks| ==> AggregatedPoints(result[i].points, Members(series, grouping, without, ks[i]), op)
  {
    hide AggregatedPoints, Groups, Members;
    forall i | 0 <= i < |ks| ensures AggregatedPoints(result[i].points, Members(series, grouping, without, ks[i]), op) {
      GroupsAre(series, grouping, without, ks[i]);
    }
  }

  /** Without grouping labels everything is one group, with no labels. */
  lemma {:induction false} OneGroup(series: seq<TimeSeries>)
    ensures Groups(series, [], false) == if series == [] then map[] else map["" := Group(map[], series)]
  {
    if series != [] {
      OneGroup(series[..|series| - 1]);
      assert GroupKey(series[|series| - 1].labels, [], false) == "";
      assert GroupLabels(series[|series| - 1].labels, [], false) == map[];
      assert series == series[..|series| - 1] + [series[|series| - 1]];
    }
  }

  lemma FirstKeys(ks: seq<string>)
    ensures ks != [] ==> ks[0] in ks
    ensures |ks| > 1 ==> ks[1] in ks
  {
  }

  lemma WholeAggregation(result: seq<TimeSeries>, series: seq<TimeSeries>, op: string)
    requires IsAggregation(result, series, op, [], false)
    ensures series == [] ==> result == []
    ensures series != [] ==> |result| == 1 && result[0].labels == map[] && AggregatedPoints(result[0].points, series, op)
  {
    hide AggregatedPoints, Groups;
    OneGroup(series);
    var ks :| AggregatedBy(ks, result, series, op, [], false);
    FirstKeys(ks);
    if series != [] { assert "" in ks; }
  }

  /** The laws of nesting, for any grouping, `by` or `without`: the sum of group sums is the
      sum, the sum of group counts the count, the maximum of group maxima the maximum and the
      minimum of group minima the minimum, as whole results. */
  lemma {:induction false} NestedAggregation(series: seq<TimeSeries>, grouping: seq<string>, without: bool,
                          innerOp: string, inner: seq<TimeSeries>, outerOp: string, outer: seq<TimeSeries>,
                          directOp: string, direct: seq<TimeSeries>)
    requires Nests(outerOp, innerOp, directOp)
    requires outerOp != "sum" ==> AllNumbers(series)
    requires IsAggregation(inner, series, innerOp, grouping, without)
    requires IsAggregation(outer, inner, outerOp, [], false)
    requires IsAggregation(direct, series, directOp, [], false)
    ensures outer == direct
  {
    hide Groups, Members, Apply, At, ValuesAt, Parts, Folded, Concat, Gathered, Nests, AggregatedPoints, Numbers;
    var ks :| AggregatedBy(ks, inner, series, innerOp, grouping, without);
    GroupMembers(ks, inner, series, innerOp, grouping, without);
    GroupsPartition(ks, series, grouping, without);
    WholeAggregation(outer, inner, outerOp);
    WholeAggregation(direct, series, directOp);
    NoGroups(ks, series, grouping, without);
    if series != [] {
      forall t ensures At(outer[0].points, t) == At(direct[0].points, t) {
        SameAt(ks, inner, series, grouping, without, innerOp, outerOp, outer[0].points, directOp, direct[0].points, t);
      }
      AreIncreasing(outer[0].points, inner, outerOp);
      AreIncreasing(direct[0].points, series, directOp);
      PointsUnique(outer[0].points, direct[0].points);
    }
  }

  lemma AreIncreasing(points: seq<Point>, series: seq<TimeSeries>, op: string)
    requires AggregatedPoints(points, series, op)
    ensures Increasing(points)
  {
  }

  lemma NoGroups(ks: seq<string>, series: seq<TimeSeries>, grouping: seq<string>, without: bool)
    requires KeysOf(ks, Groups(series, grouping, without))
    ensures ks == [] <==> series == []
  {
    FirstKeys(ks);
    if series != [] {
      var key := GroupKey(series[|series| - 1].labels, grouping, without);
      assert key in Groups(series, grouping, without);
    }
  }

  lemma {:induction false} SameAt(ks: seq<string>, inner: seq<TimeSeries>, series: seq<TimeSeries>, grouping: seq<string>, without: bool,
               innerOp: string, outerOp: string, outer: seq<Point>, directOp: string, direct: seq<Point>, t: int)
    requires Nests(outerOp, innerOp, directOp) && (outerOp != "sum" ==> AllNumbers(series))
    requires |inner| == |ks|
    requires forall i :: 0 <= i < |ks| ==> AggregatedPoints(inner[i].points, Members(series, grouping, without, ks[i]), innerOp)
    requires multiset(Gathered(ks, series, grouping, without)) == multiset(series)
    requires AggregatedPoints(outer, inner, outerOp) && AggregatedPoints(direct, series, directOp)
    ensures At(outer, t) == At(direct, t)
  {
    hide Members, Apply, At, ValuesAt, Parts, Folded, Concat, Gathered, Nests, Numbers;
    var parts := Parts(ks, series, grouping, without, t);
    FoldedParts(ks, inner, series, innerOp, grouping, without, t);
    PartsOfGathered(ks, series, grouping, without, t);
    ValuesPermute(Gathered(ks, series, grouping, without), series, t);
    NestedValues(parts, ValuesAt(series, t), outerOp, innerOp, directOp);
    assert At(outer, t) == AggregateAt(inner, outerOp, t);
    assert At(direct, t) == AggregateAt(series, directOp, t);
  }
}
