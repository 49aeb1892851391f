/**
 Execution of expression trees (pkg/query/executor.go): results are heap objects that unary
 operators change in place and that binary operators close once they are combined.
 */
module Scalars {
  import opened Options
  import opened Tokens
  import opened Ast
  import opened SeriesKeys
  import opened Values

  /* ---- arithmetic ---- */

  /** What is not modelled: the number a literal denotes, power and modulo. */
  datatype Math = Math(numeral: string -> real, pow: (Value, Value) -> Value, mod: (Value, Value) -> Value)

  function Negated(v: Value): Value { if v.Number? then Number(-v.value) else Undefined }

  /** `applyOp`.  Division by zero is undefined, and so are the comparisons and set operators,
      which are parsed but not evaluated. */
  function ApplyOp(math: Math, left: Value, right: Value, op: TokenType): Value {
    if op == TokenPower then math.pow(left, right)
    else if op == TokenMod then math.mod(left, right)
    else if left.Undefined? || right.Undefined? then Undefined
    else if op == TokenPlus then Number(left.value + right.value)
    else if op == TokenMinus then Number(left.value - right.value)
    else if op == TokenMultiply then Number(left.value * right.value)
    else if op == TokenDivide && right.value != 0.0 then Number(left.value / right.value)
    else Undefined
  }

  /** Trees without selectors, calls and aggregations. */
  predicate Scalar(e: Expr) {
    match e
    case NumberLiteral(_) => true
    case UnaryExpr(_, inner) => Scalar(inner)
    case ParenExpr(inner) => Scalar(inner)
    case BinaryExpr(left, _, right) => Scalar(left) && Scalar(right)
    case _ => false
  }

  /** The value of a tree. */
  function Eval(math: Math, e: Expr): Value
    requires Scalar(e)
  {
    match e
    case NumberLiteral(literal) => Number(math.numeral(literal))
    case UnaryExpr(op, inner) => if op == TokenMinus then Negated(Eval(math, inner)) else Eval(math, inner)
    case ParenExpr(inner) => Eval(math, inner)
    case BinaryExpr(left, op, right) => ApplyOp(math, Eval(math, left), Eval(math, right), op)
  }

  /* ---- the step grid ---- */

  datatype Range = Range(start: int, end: int, step: int)

  /** The loop over the instants ends. */
  predicate Ends(r: Range) { r.step > 0 || r.start > r.end }

  /** How many instants `start`, `start + step`, … up to `end` there are. */
  function Steps(r: Range): nat
    requires Ends(r)
  {
    if r.start <= r.end then (r.end - r.start) / r.step + 1 else 0
  }

  /** The loop condition fails at some instant exactly for a positive step or an empty window. */
  lemma EndsExactly(r: Range)
    ensures Ends(r) <==> exists k: nat :: r.start + k * r.step > r.end
  {
    if r.step > 0 {
      var k := if r.start <= r.end then (r.end - r.start) / r.step + 1 else 0;
      StepsAre(r, k);
      assert r.start + k * r.step > r.end;
    } else if r.start > r.end {
      assert r.start + 0 * r.step > r.end;
    } else {
      forall k: nat ensures r.start + k * r.step <= r.end { NonNegative(k, -r.step); assert k * r.step == -(k * -r.step); }
    }
  }

  /** The first `n` instants of the grid, all with the value `v`. */
  function Grid(r: Range, n: nat, v: Value): (points: seq<Point>)
    ensures |points| == n
    ensures forall k :: 0 <= k < n ==> points[k] == Point(r.start + k * r.step, v)
  {
    if n == 0 then [] else Grid(r, n - 1, v) + [Point(r.start + (n - 1) * r.step, v)]
  }

  /** The grid is what the loop condition admits: its last instant is the last one not after
      the end. */
  lemma {:induction false} StepsAre(r: Range, k: nat)
    requires r.step > 0
    ensures k < Steps(r) <==> r.start + k * r.step <= r.end
  {
    var d := r.end - r.start;
    if d >= 0 { QuotientBounds(d, r.step, k); } else { NonNegative(k, r.step); }
  }

  lemma NonNegative(a: nat, b: nat)
    ensures a * b >= 0
  {
  }

  lemma {:induction false} QuotientBounds(d: nat, step: nat, k: nat)
    requires step > 0
    ensures k < d / step + 1 <==> k * step <= d
  {
    var q := d / step;
    assert d == q * step + d % step;
    if k <= q {
      NonNegative(q - k, step);
      assert q * step == k * step + (q - k) * step;
    } else {
      NonNegative(k - q - 1, step);
      assert k * step == q * step + step + (k - q - 1) * step;
    }
  }

  lemma GridIncreases(r: Range, n: nat, v: Value)
    requires r.step > 0
    ensures Increasing(Grid(r, n, v))
  {
    var points := Grid(r, n, v);
    forall i, j | 0 <= i < j < n ensures points[i].time < points[j].time { LaterStep(i, j, r.step); }
  }

  lemma LaterStep(i: nat, j: nat, step: nat)
    requires i < j && step > 0
    ensures i * step < j * step
  {
    NonNegative(j - i - 1, step);
    assert j * step == i * step + step + (j - i - 1) * step;
  }

  /* ---- joining two series by time ---- */

  /** The first value at an instant. */
  function FirstAt(points: seq<Point>, t: int): Option<Value> {
    if points == [] then None
    else if points[0].time == t then Some(points[0].value)
    else FirstAt(points[1..], t)
  }

  /** The points of `left`, combined with the first point of `right` at the same instant. */
  function Joined(math: Math, left: seq<Point>, right: seq<Point>, op: TokenType): seq<Point> {
    if left == [] then []
    else
      var rest, p := Joined(math, left[..|left| - 1], right, op), left[|left| - 1];
      var other := FirstAt(right, p.time);
      if other.Some? then rest + [Point(p.time, ApplyOp(math, p.value, other.value, op))] else rest
  }

  lemma {:induction false} FirstAtIndex(points: seq<Point>, i: nat)
    requires i < |points| && forall j :: 0 <= j < i ==> points[j].time != points[i].time
    ensures FirstAt(points, points[i].time) == Some(points[i].value)
  {
    if i > 0 { FirstAtIndex(points[1..], i - 1); }
  }

  lemma {:induction false} FirstAtNone(points: seq<Point>, t: int)
    requires forall j :: 0 <= j < |points| ==> points[j].time != t
    ensures FirstAt(points, t) == None
  {
    if points != [] { FirstAtNone(points[1..], t); }
  }

  /** Two grids join to the grid of the combined value. */
  lemma {:induction false} JoinedGrids(math: Math, r: Range, n: nat, k: nat, v: Value, w: Value, op: TokenType)
    requires Ends(r) && k <= n <= Steps(r)
    ensures Joined(math, Grid(r, k, v), Grid(r, n, w), op) == Grid(r, k, ApplyOp(math, v, w, op))
    decreases k
  {
    hide ApplyOp, Joined, Grid;
    if k > 0 {
      StepsPositive(r);
      JoinedGrids(math, r, n, k - 1, v, w, op);
      GridAt(r, n, w, k - 1);
      GridStep(r, k, v);
      GridStep(r, k, ApplyOp(math, v, w, op));
      JoinedStep(math, Grid(r, k - 1, v), Point(r.start + (k - 1) * r.step, v), Grid(r, n, w), op);
    } else {
      NothingJoined(math, r, Grid(r, n, w), v, ApplyOp(math, v, w, op), op);
    }
  }

  lemma StepsPositive(r: Range)
    requires Ends(r) && Steps(r) > 0
    ensures r.step > 0
  {
  }

  lemma NothingJoined(math: Math, r: Range, right: seq<Point>, v: Value, w: Value, op: TokenType)
    ensures Joined(math, Grid(r, 0, v), right, op) == Grid(r, 0, w) == []
  {
  }

  lemma GridStep(r: Range, n: nat, v: Value)
    requires n > 0
    ensures Grid(r, n, v) == Grid(r, n - 1, v) + [Point(r.start + (n - 1) * r.step, v)]
  {
  }

  lemma GridAt(r: Range, n: nat, w: Value, i: nat)
    requires r.step > 0 && i < n
    ensures FirstAt(Grid(r, n, w), r.start + i * r.step) == Some(w)
  {
    var right := Grid(r, n, w);
    GridIncreases(r, n, w);
    forall j | 0 <= j < i ensures right[j].time != right[i].time { assert right[j].time < right[i].time; }
    FirstAtIndex(right, i);
  }

  lemma JoinedStep(math: Math, left: seq<Point>, p: Point, right: seq<Point>, op: TokenType)
    ensures var other := FirstAt(right, p.time);
            Joined(math, left + [p], right, op) == Joined(math, left, right, op) +
            if other.Some? then [Point(p.time, ApplyOp(math, p.value, other.value, op))] else []
  {
    hide ApplyOp;
    assert (left + [p])[..|left|] == left;
  }

  lemma {:induction false} FirstIsAt(points: seq<Point>, t: int)
    ensures FirstAt(points, t).None? ==> At(points, t) == []
    ensures FirstAt(points, t).Some? ==> At(points, t) != [] && At(points, t)[0] == FirstAt(points, t).value
    decreases |points|
  {
    if points != [] {
      FirstIsAt(points[1..], t);
      AtFirst(points, t);
    }
  }

  lemma {:induction false} AtFirst(points: seq<Point>, t: int)
    requires points != []
    ensures At(points, t) == (if points[0].time == t then [points[0].value] else []) + At(points[1..], t)
    decreases |points|
  {
    if |points| > 1 {
      AtFirst(points[..|points| - 1], t);
      assert points[1..][..|points| - 2] == points[..|points| - 1][1..];
    } else {
      assert points[..0] == [];
    }
  }

  /** Joining by time: an instant of the left side is in the result exactly when the right side has it
      too, with the left value first and the first value of the right one. */
  lemma {:induction false} JoinedAt(math: Math, left: seq<Point>, right: seq<Point>, op: TokenType, t: int)
    ensures At(right, t) == [] ==> At(Joined(math, left, right, op), t) == []
    ensures At(right, t) != [] ==>
              var values := At(Joined(math, left, right, op), t);
              |values| == |At(left, t)| && forall i :: 0 <= i < |values| ==> values[i] == ApplyOp(math, At(left, t)[i], At(right, t)[0], op)
  {
    hide ApplyOp, FirstAt;
    if left != [] {
      var front, p := left[..|left| - 1], left[|left| - 1];
      JoinedAt(math, front, right, op, t);
      FirstIsAt(right, p.time);
    }
  }

  /* ---- results on the heap ---- */

  /** A label map, which several series may share and nobody changes. */
  class LabelMap {
    const entries: Labels

    constructor (entries: Labels)
      ensures this.entries == entries
    {
      this.entries := entries;
    }
  }

  class Series {
    var labels: LabelMap?
    var points: array?<Point>

    constructor (labels: LabelMap?, points: array?<Point>)
      ensures this.labels == labels && this.points == points
    {
      this.labels, this.points := labels, points;
    }

    /** A nil slice has no points. */
    function Points(): seq<Point>
      reads this, points
    {
      if points == null then [] else points[..]
    }
  }

  class Result {
    var series: seq<Series>
    var totalSamples: nat

    constructor (series: seq<Series>)
      ensures this.series == series && totalSamples == 0
    {
      this.series, totalSamples := series, 0;
    }

    /** `Close` drops the references; the points and labels themselves stay as they are. */
    method Close()
      modifies this, series
      ensures series == [] && totalSamples == 0
      ensures forall s :: s in old(series) ==> s.points == null && s.labels == null
    {
      for i := 0 to |series|
        modifies series
        invariant series == old(series)
        invariant forall j :: 0 <= j < i ==> series[j].points == null && series[j].labels == null
      {
        series[i].points := null;
        series[i].labels := null;
      }
      series, totalSamples := [], 0;
    }
  }

  /** A series with the given labels and points; its points did not exist before. */
  twostate predicate FreshSeries(new s: Series, new series: TimeSeries)
    reads s, s.points
  {
    && fresh(s) && s.points != null && fresh(s.points) && s.Points() == series.points
    && s.labels != null && s.labels.entries == series.labels
  }

  /** No two series share their points; they may share a label map. */
  predicate Apart(series: seq<Series>)
    reads series
  {
    forall i, j :: 0 <= i < j < |series| ==>
      series[i] != series[j] && (series[i].points != null ==> series[i].points != series[j].points)
  }

  /** A result of the given series. */
  twostate predicate Fresh(new r: Result, new series: seq<TimeSeries>)
    reads r, r.series
    reads set s: Series | s in r.series && s.points != null :: s.points
  {
    && fresh(r) && |r.series| == |series| && Apart(r.series)
    && forall i :: 0 <= i < |series| ==> FreshSeries(r.series[i], series[i])
  }

  /** One series with points of its own, on the label map `labels`. */
  twostate predicate FreshPoints(new r: Result, labels: LabelMap?, new points: seq<Point>)
    reads r, r.series, set s: Series | s in r.series && s.points != null :: s.points
  {
    && fresh(r) && |r.series| == 1 && fresh(r.series[0])
    && r.series[0].points != null && fresh(r.series[0].points)
    && r.series[0].Points() == points && r.series[0].labels == labels
  }

  function SeriesIn(r: Result?): set<Series>
    reads r
  {
    if r == null then {} else set s | s in r.series
  }

  /** Null for an error, otherwise a fresh result of the series. */
  twostate predicate Yields(new r: Result?, new outcome: Option<seq<TimeSeries>>)
    reads r, SeriesIn(r)
    reads set s: Series | s in SeriesIn(r) && s.points != null :: s.points
  {
    if outcome.None? then r == null else r != null && Fresh(r, outcome.value)
  }

  method MakeSeries(labels: LabelMap, points: seq<Point>) returns (s: Series)
    ensures fresh(s) && s.labels == labels && s.points != null && fresh(s.points) && s.Points() == points
  {
    var stored := new Point[|points|](i requires 0 <= i < |points| => points[i]);
    assert stored[..] == points;
    s := new Series(labels, stored);
  }

  method ExecuteNumberLiteral(value: real, range: Range) returns (r: Result)
    requires Ends(range)
    ensures Fresh(r, [TimeSeries(map[], Grid(range, Steps(range), Number(value)))])
  {
    var points: seq<Point> := [];
    var t := range.start;
    while t <= range.end
      invariant t == range.start + |points| * range.step
      invariant points == Grid(range, |points|, Number(value))
      invariant |points| <= Steps(range)
      decreases Steps(range) - |points|
    {
      StepsAre(range, |points|);
      points := points + [Point(t, Number(value))];
      assert |points| * range.step == (|points| - 1) * range.step + range.step;
      t := t + range.step;
    }
    if range.step > 0 { StepsAre(range, |points|); }
    var labels := new LabelMap(map[]);
    var series := MakeSeries(labels, points);
    r := new Result([series]);
  }

  function NegatedPoints(points: seq<Point>): (r: seq<Point>)
    ensures |r| == |points|
    ensures forall i :: 0 <= i < |r| ==> r[i] == Point(points[i].time, Negated(points[i].value))
  {
    if points == [] then []
    else
      var n := |points| - 1;
      NegatedPoints(points[..n]) + [Point(points[n].time, Negated(points[n].value))]
  }

  /** The inner loop of a unary minus: the points change where they stand. */
  method NegateInPlace(points: array<Point>)
    modifies points
    ensures points[..] == NegatedPoints(old(points[..]))
  {
    for j := 0 to points.Length
      invariant forall k :: 0 <= k < j ==> points[k] == Point(old(points[k]).time, Negated(old(points[k]).value))
      invariant forall k :: j <= k < points.Length ==> points[k] == old(points[k])
    {
      points[j] := Point(points[j].time, Negated(points[j].value));
    }
  }

  /** The nested loops of `applyBinaryOp`. */
  method JoinPoints(math: Math, left: seq<Point>, right: seq<Point>, op: TokenType) returns (points: seq<Point>)
    ensures points == Joined(math, left, right, op)
  {
    hide ApplyOp;
    points := [];
    for i := 0 to |left|
      invariant points == Joined(math, left[..i], right, op)
    {
      var lp := left[i];
      assert left[..i + 1][..i] == left[..i];
      var j := 0;
      while j < |right| && right[j].time != lp.time
        invariant 0 <= j <= |right| && forall k :: 0 <= k < j ==> right[k].time != lp.time
      {
        j := j + 1;
      }
      if j < |right| {
        FirstAtIndex(right, j);
        points := points + [Point(lp.time, ApplyOp(math, lp.value, right[j].value, op))];
      } else {
        FirstAtNone(right, lp.time);
      }
    }
    assert left[..|left|] == left;
  }

  /** `applyBinaryOp`: null for the error when a side is not a single series.  The new series
      shares the label map of the left one but has its own points. */
  method ApplyBinaryOp(math: Math, left: Result, right: Result, op: TokenType) returns (r: Result?)
    requires |left.series| == 1 ==> left.series[0].labels != null
    ensures r != null <==> |left.series| == 1 && |right.series| == 1
    ensures r != null ==>
              fresh(r) && FreshPoints(r, left.series[0].labels, Joined(math, left.series[0].Points(), right.series[0].Points(), op))
  {
    hide Joined;
    if |left.series| == 1 && |right.series| == 1 {
      var points := JoinPoints(math, left.series[0].Points(), right.series[0].Points(), op);
      var series := MakeSeries(left.series[0].labels, points);
      r := new Result([series]);
    } else {
      r := null;
    }
  }

  /* ---- results as values ---- */

  function NegatedSeries(series: seq<TimeSeries>): (r: seq<TimeSeries>)
    ensures |r| == |series|
    ensures forall i :: 0 <= i < |r| ==> r[i] == TimeSeries(series[i].labels, NegatedPoints(series[i].points))
  {
    seq(|series|, i requires 0 <= i < |series| => TimeSeries(series[i].labels, NegatedPoints(series[i].points)))
  }

  function Signed(op: TokenType, inner: Option<seq<TimeSeries>>): Option<seq<TimeSeries>> {
    if op == TokenMinus && inner.Some? then Some(NegatedSeries(inner.value)) else inner
  }

  /** An error in a side is one in the whole, and so is a side that is not a single series. */
  function Combined(math: Math, left: Option<seq<TimeSeries>>, right: Option<seq<TimeSeries>>, op: TokenType): Option<seq<TimeSeries>> {
    if left.Some? && right.Some? && |left.value| == 1 && |right.value| == 1 then
      Some([TimeSeries(left.value[0].labels, Joined(math, left.value[0].points, right.value[0].points, op))])
    else None
  }

  lemma NegatedOne(series: TimeSeries)
    ensures NegatedSeries([series]) == [TimeSeries(series.labels, NegatedPoints(series.points))]
  {
  }

  lemma NegatedGrid(range: Range, n: nat, v: Value)
    ensures NegatedPoints(Grid(range, n, v)) == Grid(range, n, Negated(v))
  {
    var x, y := NegatedPoints(Grid(range, n, v)), Grid(range, n, Negated(v));
    forall k | 0 <= k < n ensures x[k] == y[k] {}
  }

  lemma NegatedTwice(points: seq<Point>)
    ensures NegatedPoints(NegatedPoints(points)) == points
  {
    hide NegatedPoints;
    var twice := NegatedPoints(NegatedPoints(points));
    forall i | 0 <= i < |points| ensures twice[i] == points[i] {}
  }

  lemma NegatedSeriesTwice(series: seq<TimeSeries>)
    ensures NegatedSeries(NegatedSeries(series)) == series
  {
    hide NegatedPoints, NegatedSeries;
    var twice := NegatedSeries(NegatedSeries(series));
    forall i | 0 <= i < |series| ensures twice[i] == series[i] { NegatedTwice(series[i].points); }
  }

  /** A result that holds the given series. */
  method MakeResult(series: seq<TimeSeries>) returns (r: Result)
    ensures Fresh(r, series)
  {
    var made: seq<Series> := [];
    for i := 0 to |series|
      invariant |made| == i && Apart(made)
      invariant forall j :: 0 <= j < i ==> FreshSeries(made[j], series[j])
    {
      var labels := new LabelMap(series[i].labels);
      var s := MakeSeries(labels, series[i].points);
      made := made + [s];
    }
    r := new Result(made);
  }

  /** The loops of a unary minus over all series; `values` are what they hold before. */
  method NegateAll(series: seq<Series>, ghost values: seq<TimeSeries>)
    requires Apart(series) && |values| == |series|
    requires forall i :: 0 <= i < |series| ==> series[i].points != null && series[i].Points() == values[i].points
    modifies set s: Series | s in series && s.points != null :: s.points
    ensures forall i :: 0 <= i < |series| ==> series[i].Points() == NegatedPoints(values[i].points)
  {
    hide NegatedPoints;
    for i := 0 to |series|
      invariant forall j :: 0 <= j < i ==> series[j].Points() == NegatedPoints(values[j].points)
      invariant forall j :: i <= j < |series| ==> series[j].Points() == values[j].points
    {
      NegateInPlace(series[i].points);
    }
  }

  twostate lemma YieldedParts(new r: Result?, new outcome: Option<seq<TimeSeries>>)
    requires Yields(r, outcome)
    ensures r == null <==> outcome.None?
    ensures r != null ==>
              && fresh(r) && |r.series| == |outcome.value| && (forall i :: 0 <= i < |r.series| ==> fresh(r.series[i]))
              && Single(r, outcome.value) && (|r.series| == 1 ==> FreshSeries(r.series[0], outcome.value[0]))
  {
  }

  twostate lemma YieldsOne(new r: Result, new series: TimeSeries)
    requires fresh(r) && |r.series| == 1 && FreshSeries(r.series[0], series)
    ensures Yields(r, Some([series]))
  {
  }

  /** A single series is the given one; its label map is there. */
  predicate Single(r: Result, series: seq<TimeSeries>)
    reads r, r.series
    reads set s: Series | s in r.series && s.points != null :: s.points
  {
    && |r.series| == |series|
    && (|series| == 1 ==>
          && r.series[0].Points() == series[0].points
          && r.series[0].labels != null && r.series[0].labels.entries == series[0].labels)
  }

  /** The end of `executeBinaryExpr`: the deferred `Close` calls run once the combined result
      exists, and leave it alone. */
  method CombineAndClose(math: Math, left: Result, right: Result, op: TokenType) returns (r: Result?)
    requires |left.series| == 1 ==> left.series[0].labels != null
    modifies left, left.series, right, right.series
    ensures r != null <==> old(|left.series| == 1 && |right.series| == 1)
    ensures r != null ==>
              FreshPoints(r, old(left.series[0].labels), Joined(math, old(left.series[0].Points()), old(right.series[0].Points()), op))
    ensures left.series == [] && right.series == []
    ensures forall s :: s in old(left.series) + old(right.series) ==> s.points == null && s.labels == null
  {
    hide Joined;
    r := ApplyBinaryOp(math, left, right, op);
    right.Close();
    left.Close();
  }

  function PointCount(series: seq<TimeSeries>): nat {
    if series == [] then 0 else PointCount(series[..|series| - 1]) + |series[|series| - 1].points|
  }
}
