/**
 Execution of expression trees (pkg/query/executor.go): what every tree yields on a store, and
 the methods that compute it on heap objects which are changed and closed in place.
 */
module Execution {
  import opened Options
  import opened Tokens
  import opened Ast
  import opened SeriesKeys
  import opened Metrics
  import opened Values
  import opened Scalars
  import opened Rates
  import Selection
  import Aggregation
  import MemoryStorage
  import B = BadgerStorage
  import BadgerKey

  /* ---- what a tree yields ---- */

  /** What a query is executed against: the store and its errors, the limit on samples, the window. */
  datatype Session = Session(math: Math, contents: Selection.Contents, failing: MemoryStorage.QueryRequest -> bool,
                             maxSamples: nat, range: Range)

  /** The series, None for an error, and the samples loaded so far. */
  datatype Outcome = Outcome(series: Option<seq<TimeSeries>>, loaded: nat)

  ghost function Loads(q: Session, vec: Vector, start: int, loaded: nat): (Option<seq<Metric>>, nat) {
    Selection.Loaded(q.contents, q.failing, q.maxSamples, Selection.Request(vec, start, q.range.end), loaded)
  }

  function SamplePoints(samples: seq<Sample>): (r: seq<Point>)
    ensures |r| == |samples| && forall i :: 0 <= i < |r| ==> r[i] == Point(samples[i].time, Number(samples[i].value))
  {
    seq(|samples|, i requires 0 <= i < |samples| => Point(samples[i].time, Number(samples[i].value)))
  }

  function SelectedSeries(raw: seq<Selection.RawSeries>): (r: seq<TimeSeries>)
    ensures |r| == |raw| && forall i :: 0 <= i < |r| ==> r[i] == TimeSeries(raw[i].labels, SamplePoints(raw[i].samples))
  {
    seq(|raw|, i requires 0 <= i < |raw| => TimeSeries(raw[i].labels, SamplePoints(raw[i].samples)))
  }

  /** A finite quotient as a value; the others arise from a zero range alone. */
  function AsValue(q: Quotient): Value { if q.Finite? then Number(q.value) else Values.Undefined }

  function RatePoints(rates: seq<RatePoint>): (r: seq<Point>)
    ensures |r| == |rates| && forall i :: 0 <= i < |r| ==> r[i] == Point(rates[i].time, AsValue(rates[i].value))
  {
    seq(|rates|, i requires 0 <= i < |rates| => Point(rates[i].time, AsValue(rates[i].value)))
  }

  /** The rates of a series, or its increases. */
  function RatesOrIncreases(s: Selection.RawSeries, d: int, increase: bool): seq<RatePoint> {
    var rates := NaiveRates(s.samples, |s.samples|, d);
    if increase then Scaled(rates, d) else rates
  }

  function RateSeriesOf(raw: seq<Selection.RawSeries>, d: int, increase: bool): (r: seq<TimeSeries>)
    ensures |r| == |raw|
    ensures forall i :: 0 <= i < |r| ==> r[i] == TimeSeries(raw[i].labels, RatePoints(RatesOrIncreases(raw[i], d, increase)))
  {
    seq(|raw|, i requires 0 <= i < |raw| => TimeSeries(raw[i].labels, RatePoints(RatesOrIncreases(raw[i], d, increase))))
  }

  /** A selector, from `start` on. */
  ghost predicate Selected(q: Session, vec: Vector, start: int, loaded: nat, o: Outcome) {
    var loads := Loads(q, vec, start, loaded);
    && o.loaded == loads.1 && (o.series.Some? <==> loads.0.Some?)
    && (o.series.Some? ==> exists raw :: Selection.Selects(raw, loads.0.value) && o.series.value == SelectedSeries(raw))
  }

  predicate IsRate(name: string, args: seq<Expr>) {
    (name == "rate" || name == "increase") && |args| == 1 && args[0].RangeSelector?
  }

  /** A call: an error unless it is a rate or an increase of one range.  Nothing is said of the
      quotients by a zero range. */
  ghost predicate Called(q: Session, name: string, args: seq<Expr>, loaded: nat, o: Outcome) {
    if !IsRate(name, args) then o == Outcome(None, loaded)
    else
      var d := args[0].duration;
      var loads := Loads(q, args[0].vector, q.range.start - d, loaded);
      && o.loaded == loads.1 && (o.series.Some? <==> loads.0.Some?)
      && (o.series.Some? ==>
            exists raw :: Selection.Selects(raw, loads.0.value) && |o.series.value| == |raw|
                          && (d != 0 ==> o.series.value == RateSeriesOf(raw, d, name == "increase")))
  }

  /** An aggregation of what its operand yields. */
  ghost predicate Aggregated(e: Expr, i: Outcome, o: Outcome)
    requires e.AggregateExpr?
  {
    && o.loaded == i.loaded && (o.series.Some? <==> i.series.Some?)
    && (o.series.Some? ==> Aggregation.IsAggregation(o.series.value, i.series.value, e.aggregation, e.grouping, e.without))
  }

  /** `o` is a possible outcome of executing the tree: the order of groups and series is that of a
      map range. */
  ghost predicate Executes(q: Session, e: Expr, loaded: nat, o: Outcome)
    decreases e
  {
    match e
    case VectorSelector(vec) => Selected(q, vec, q.range.start, loaded, o)
    case RangeSelector(vec, d) => Selected(q, vec, q.range.start - d, loaded, o)
    case FunctionCall(name, args) => Called(q, name, args, loaded, o)
    case UnaryExpr(op, x) => exists i :: Executes(q, x, loaded, i) && o == Outcome(Signed(op, i.series), i.loaded)
    case BinaryExpr(left, op, right) =>
      exists x :: Executes(q, left, loaded, x) &&
        if x.series.None? then o == x
        else exists y :: Executes(q, right, x.loaded, y) && o == Outcome(Combined(q.math, x.series, y.series, op), y.loaded)
    case AggregateExpr(_, _, _, body) =>
      if body.None? then o == Outcome(None, loaded)
      else exists i :: Executes(q, body.value, loaded, i) && Aggregated(e, i, o)
    case NumberLiteral(literal) => Ends(q.range) && o == Outcome(Some([Constant(q, q.math.numeral(literal))]), loaded)
    case ParenExpr(x) => Executes(q, x, loaded, o)
  }

  /** One unlabelled series with a value at every instant of the grid. */
  function GridOf(range: Range, v: Value): TimeSeries
    requires Ends(range)
  {
    TimeSeries(map[], Grid(range, Steps(range), v))
  }

  function Constant(q: Session, value: real): TimeSeries
    requires Ends(q.range)
  {
    GridOf(q.range, Number(value))
  }

  /* ---- laws ---- */

  /** A tree of numbers has one outcome: a series on the grid that holds its value. */
  lemma {:induction false} ScalarExecutes(q: Session, e: Expr, loaded: nat, o: Outcome)
    requires Ends(q.range) && Scalar(e)
    ensures Executes(q, e, loaded, o) <==> o == Outcome(Some([GridOf(q.range, Eval(q.math, e))]), loaded)
    decreases e
  {
    hide Steps, Grid, ApplyOp, Joined, NegatedPoints, GridOf, Selected, Called, Aggregated;
    match e
    case NumberLiteral(_) =>
    case UnaryExpr(op, x) =>
      var i := Outcome(Some([GridOf(q.range, Eval(q.math, x))]), loaded);
      forall j ensures Executes(q, x, loaded, j) <==> j == i { ScalarExecutes(q, x, loaded, j); }
      GridNegated(q.range, Eval(q.math, x));
    case ParenExpr(x) =>
      ScalarExecutes(q, x, loaded, o);
    case BinaryExpr(left, op, right) =>
      var i, j := Outcome(Some([GridOf(q.range, Eval(q.math, left))]), loaded), Outcome(Some([GridOf(q.range, Eval(q.math, right))]), loaded);
      forall x ensures Executes(q, left, loaded, x) <==> x == i { ScalarExecutes(q, left, loaded, x); }
      forall y ensures Executes(q, right, loaded, y) <==> y == j { ScalarExecutes(q, right, loaded, y); }
      GridsCombined(q.math, q.range, Eval(q.math, left), Eval(q.math, right), op);
  }

  lemma GridNegated(range: Range, v: Value)
    requires Ends(range)
    ensures Signed(TokenMinus, Some([GridOf(range, v)])) == Some([GridOf(range, Negated(v))])
  {
    hide Steps, Grid, NegatedPoints;
    NegatedOne(GridOf(range, v));
    NegatedGrid(range, Steps(range), v);
  }

  lemma GridsCombined(math: Math, range: Range, v: Value, w: Value, op: TokenType)
    requires Ends(range)
    ensures Combined(math, Some([GridOf(range, v)]), Some([GridOf(range, w)]), op) == Some([GridOf(range, ApplyOp(math, v, w, op))])
  {
    hide Steps, Grid, Joined, ApplyOp;
    JoinedGrids(math, range, Steps(range), Steps(range), v, w, op);
  }

  /** Two signs cancel, on every tree. */
  lemma {:induction false} DoubleMinus(q: Session, e: Expr, loaded: nat, o: Outcome)
    ensures Executes(q, UnaryExpr(TokenMinus, UnaryExpr(TokenMinus, e)), loaded, o) <==> Executes(q, e, loaded, o)
  {
    hide NegatedSeries, Selected, Called, Aggregated;
    var once, twice := UnaryExpr(TokenMinus, e), UnaryExpr(TokenMinus, UnaryExpr(TokenMinus, e));
    if Executes(q, twice, loaded, o) {
      var i :| Executes(q, once, loaded, i) && o == Outcome(Signed(TokenMinus, i.series), i.loaded);
      var j :| Executes(q, e, loaded, j) && i == Outcome(Signed(TokenMinus, j.series), j.loaded);
      if j.series.Some? { NegatedSeriesTwice(j.series.value); }
    }
    if Executes(q, e, loaded, o) {
      var i := Outcome(Signed(TokenMinus, o.series), o.loaded);
      assert Executes(q, once, loaded, i);
      if o.series.Some? { NegatedSeriesTwice(o.series.value); }
      assert o == Outcome(Signed(TokenMinus, i.series), i.loaded);
    }
  }

  function Over(op: string, grouping: seq<string>, without: bool, e: Expr): Expr { AggregateExpr(op, grouping, without, Some(e)) }

  /** Two aggregations of the series, one over the other, and one alone. */
  ghost predicate BothWays(series: seq<TimeSeries>, outer: string, inner: string, direct: string, grouping: seq<string>, without: bool,
                           m: seq<TimeSeries>, x: seq<TimeSeries>, y: seq<TimeSeries>) {
    && Aggregation.IsAggregation(m, series, inner, grouping, without)
    && Aggregation.IsAggregation(x, m, outer, [], false)
    && Aggregation.IsAggregation(y, series, direct, [], false)
  }

  ghost predicate SameWhole(series: seq<TimeSeries>, outer: string, inner: string, direct: string, grouping: seq<string>, without: bool) {
    forall m, x, y :: BothWays(series, outer, inner, direct, grouping, without, m, x, y) ==> x == y
  }

  lemma NestsWhole(series: seq<TimeSeries>, outer: string, inner: string, direct: string, grouping: seq<string>, without: bool)
    requires Aggregation.Nests(outer, inner, direct) && (outer != "sum" ==> Aggregation.AllNumbers(series))
    ensures SameWhole(series, outer, inner, direct, grouping, without)
  {
    hide Aggregation.IsAggregation, Aggregation.AllNumbers, Aggregation.Nests;
    forall m, x, y | BothWays(series, outer, inner, direct, grouping, without, m, x, y) ensures x == y {
      Aggregation.NestedAggregation(series, grouping, without, inner, m, outer, x, direct, y);
    }
  }

  lemma NestedIsDirect(q: Session, e: Expr, i: Outcome, m: Outcome, o: Outcome, outer: string, inner: string, direct: string,
                       grouping: seq<string>, without: bool, loaded: nat)
    requires Executes(q, e, loaded, i) && Aggregated(Over(inner, grouping, without, e), i, m)
    requires Aggregated(Over(outer, [], false, Over(inner, grouping, without, e)), m, o)
    requires i.series.Some? ==> SameWhole(i.series.value, outer, inner, direct, grouping, without)
    ensures Executes(q, Over(direct, [], false, e), loaded, o)
  {
    hide Aggregation.IsAggregation, Selected, Called;
    if i.series.Some? {
      var y := Aggregation.AggregationExists(i.series.value, direct, [], false);
      assert BothWays(i.series.value, outer, inner, direct, grouping, without, m.series.value, o.series.value, y);
    }
    assert Aggregated(Over(direct, [], false, e), i, o);
  }

  lemma DirectIsNested(q: Session, e: Expr, i: Outcome, o: Outcome, outer: string, inner: string, direct: string,
                       grouping: seq<string>, without: bool, loaded: nat)
    requires Executes(q, e, loaded, i) && Aggregated(Over(direct, [], false, e), i, o)
    requires i.series.Some? ==> SameWhole(i.series.value, outer, inner, direct, grouping, without)
    ensures Executes(q, Over(outer, [], false, Over(inner, grouping, without, e)), loaded, o)
  {
    hide Aggregation.IsAggregation, Selected, Called;
    var grouped := Over(inner, grouping, without, e);
    var m := Outcome(None, i.loaded);
    if i.series.Some? {
      var x := Aggregation.AggregationExists(i.series.value, inner, grouping, without);
      var y := Aggregation.AggregationExists(x, outer, [], false);
      m := Outcome(Some(x), i.loaded);
      assert BothWays(i.series.value, outer, inner, direct, grouping, without, x, y, o.series.value);
    }
    assert Aggregated(grouped, i, m);
    assert Executes(q, grouped, loaded, m);
    assert Aggregated(Over(outer, [], false, grouped), m, o);
  }

  /** The laws of nesting, of queries as executed: `sum(sum by (x) (e))` and `sum(e)` have the same
      outcomes, and so have `sum(count by (x) (e))` and `count(e)`; where `e` yields numbers only,
      the same holds of the maximum and the minimum.  The grouping is any, `by` or `without`. */
  lemma {:induction false} NestedQueries(q: Session, e: Expr, outer: string, inner: string, direct: string,
                                         grouping: seq<string>, without: bool, loaded: nat, o: Outcome)
    requires Aggregation.Nests(outer, inner, direct)
    requires outer != "sum" ==> forall i :: Executes(q, e, loaded, i) && i.series.Some? ==> Aggregation.AllNumbers(i.series.value)
    ensures Executes(q, Over(outer, [], false, Over(inner, grouping, without, e)), loaded, o) <==>
            Executes(q, Over(direct, [], false, e), loaded, o)
  {
    hide Aggregated, SameWhole, Aggregation.AllNumbers, Aggregation.Nests;
    var grouped := Over(inner, grouping, without, e);
    if Executes(q, Over(outer, [], false, grouped), loaded, o) {
      var m :| Executes(q, grouped, loaded, m) && Aggregated(Over(outer, [], false, grouped), m, o);
      var i :| Executes(q, e, loaded, i) && Aggregated(grouped, i, m);
      if i.series.Some? { NestsWhole(i.series.value, outer, inner, direct, grouping, without); }
      NestedIsDirect(q, e, i, m, o, outer, inner, direct, grouping, without, loaded);
    }
    if Executes(q, Over(direct, [], false, e), loaded, o) {
      var i :| Executes(q, e, loaded, i) && Aggregated(Over(direct, [], false, e), i, o);
      if i.series.Some? { NestsWhole(i.series.value, outer, inner, direct, grouping, without); }
      DirectIsNested(q, e, i, o, outer, inner, direct, grouping, without, loaded);
    }
  }

  /* ---- selectors and rates ---- */

  /** What a request loads, when it is within the limit and the labels are free of separators. */
  ghost predicate LoadsPlain(q: Session, vec: Vector, start: int, loaded: nat, ms: seq<Metric>) {
    Loads(q, vec, start, loaded).0 == Some(ms) && Selection.PlainMetrics(ms)
  }

  /** A selector then yields one series for each label set, with exactly the samples of the metrics
      that carry it, in time order. */
  lemma {:induction false} SelectorExecutes(q: Session, vec: Vector, loaded: nat, o: Outcome, ms: seq<Metric>)
    requires Executes(q, VectorSelector(vec), loaded, o) && LoadsPlain(q, vec, q.range.start, loaded, ms)
    ensures o.series.Some? && exists raw :: Selection.SeriesOf(raw, ms) && o.series.value == SelectedSeries(raw)
  {
    hide Selection.Selects, Selection.SeriesOf, Selection.PlainMetrics, Loads;
    assert Selected(q, vec, q.range.start, loaded, o);
    hide Executes;
    var raw :| Selection.Selects(raw, ms) && o.series.value == SelectedSeries(raw);
    Selection.SelectsSeries(raw, ms);
  }

  /** What a counter rose by since the baseline of each of its points. */
  function IncreaseOf(s: Selection.RawSeries, d: int): TimeSeries {
    TimeSeries(s.labels, RatePoints(Increases(s.samples, |s.samples|, d)))
  }

  lemma OneIncrease(s: Selection.RawSeries, d: int)
    requires d > 0
    ensures TimeSeries(s.labels, RatePoints(RatesOrIncreases(s, d, true))) == IncreaseOf(s, d)
  {
    hide NaiveRates, Scaled, Increases;
    IncreaseIs(s.samples, |s.samples|, d);
  }

  ghost predicate IncreasesOf(series: seq<TimeSeries>, raw: seq<Selection.RawSeries>, d: int) {
    |series| == |raw| && forall i :: 0 <= i < |raw| ==> series[i] == IncreaseOf(raw[i], d)
  }

  /** `increase` over a positive range then yields, for each series, what the counter rose by at
      each point that has a baseline, never negative. */
  lemma {:induction false} IncreaseExecutes(q: Session, vec: Vector, d: int, loaded: nat, o: Outcome, ms: seq<Metric>)
    requires Executes(q, FunctionCall("increase", [RangeSelector(vec, d)]), loaded, o) && d > 0
    requires LoadsPlain(q, vec, q.range.start - d, loaded, ms)
    ensures o.series.Some? && exists raw :: Selection.SeriesOf(raw, ms) && IncreasesOf(o.series.value, raw, d)
  {
    hide Selection.Selects, Selection.SeriesOf, Selection.PlainMetrics, Loads, IncreaseOf, RatesOrIncreases;
    assert Called(q, "increase", [RangeSelector(vec, d)], loaded, o);
    hide Executes;
    var raw :| Selection.Selects(raw, ms) && |o.series.value| == |raw| && o.series.value == RateSeriesOf(raw, d, true);
    Selection.SelectsSeries(raw, ms);
    forall i | 0 <= i < |raw| ensures o.series.value[i] == IncreaseOf(raw[i], d) { OneIncrease(raw[i], d); }
    assert IncreasesOf(o.series.value, raw, d);
  }

  /** A series of rates: at each point of the counter that has a baseline, and at no other, a number
      that times the range in nanoseconds is what the counter rose by times those of a second. */
  ghost predicate PerSecondOf(series: TimeSeries, s: Selection.RawSeries, d: int) {
    var increases := Increases(s.samples, |s.samples|, d);
    && series.labels == s.labels && |series.points| == |increases|
    && forall j :: 0 <= j < |increases| ==>
         var p, x := series.points[j], increases[j];
         p.time == x.time && p.value.Number? && x.value.Finite? && p.value.value * d as real == x.value.value * 1_000_000_000.0
  }

  lemma OneRate(s: Selection.RawSeries, d: int)
    requires d > 0
    ensures PerSecondOf(TimeSeries(s.labels, RatePoints(RatesOrIncreases(s, d, false))), s, d)
  {
    hide NaiveRates, Increases;
    RateIsPerSecond(s.samples, |s.samples|, d);
  }

  ghost predicate RatesPerSecond(series: seq<TimeSeries>, raw: seq<Selection.RawSeries>, d: int) {
    |series| == |raw| && forall i :: 0 <= i < |raw| ==> PerSecondOf(series[i], raw[i], d)
  }

  /** `rate` over a positive range is a rise per second. */
  lemma {:induction false} RateExecutes(q: Session, vec: Vector, d: int, loaded: nat, o: Outcome, ms: seq<Metric>)
    requires Executes(q, FunctionCall("rate", [RangeSelector(vec, d)]), loaded, o) && d > 0
    requires LoadsPlain(q, vec, q.range.start - d, loaded, ms)
    ensures o.series.Some? && exists raw :: Selection.SeriesOf(raw, ms) && RatesPerSecond(o.series.value, raw, d)
  {
    hide Selection.Selects, Selection.SeriesOf, Selection.PlainMetrics, Loads, PerSecondOf, RatesOrIncreases;
    assert Called(q, "rate", [RangeSelector(vec, d)], loaded, o);
    hide Executes;
    var raw :| Selection.Selects(raw, ms) && |o.series.value| == |raw| && o.series.value == RateSeriesOf(raw, d, false);
    Selection.SelectsSeries(raw, ms);
    forall i | 0 <= i < |raw| ensures PerSecondOf(o.series.value[i], raw[i], d) { OneRate(raw[i], d); }
    assert RatesPerSecond(o.series.value, raw, d);
  }

  /* ---- both stores ---- */

  predicate ShortName(vec: Vector) { |vec.name| < 65536 }

  /** The names a tree asks for are shorter than 65536 bytes. */
  predicate ShortNames(e: Expr)
    decreases e
  {
    match e
    case VectorSelector(vec) => ShortName(vec)
    case RangeSelector(vec, _) => ShortName(vec)
    case FunctionCall(name, args) => IsRate(name, args) ==> ShortName(args[0].vector)
    case UnaryExpr(_, x) => ShortNames(x)
    case BinaryExpr(left, _, right) => ShortNames(left) && ShortNames(right)
    case AggregateExpr(_, _, _, body) => body.Some? ==> ShortNames(body.value)
    case NumberLiteral(_) => true
    case ParenExpr(x) => ShortNames(x)
  }

  /** Two stores that answer every request for one short name with the same metrics, in whatever
      order. */
  ghost predicate AnswerAlike(a: Selection.Contents, b: Selection.Contents) {
    forall vec, start, end | ShortName(vec) ::
      var x, y := Selection.Found(a, Selection.Request(vec, start, end)), Selection.Found(b, Selection.Request(vec, start, end));
      multiset(x) == multiset(y) && Selection.PlainMetrics(x)
  }

  lemma FoundAlike(a: Selection.Contents, b: Selection.Contents, vec: Vector, start: int, end: int)
    requires AnswerAlike(a, b) && ShortName(vec)
    ensures var x, y := Selection.Found(a, Selection.Request(vec, start, end)), Selection.Found(b, Selection.Request(vec, start, end));
            multiset(x) == multiset(y) && |x| == |y| && Selection.PlainMetrics(x)
  {
    hide Selection.Found, Selection.PlainMetrics;
    var x, y := Selection.Found(a, Selection.Request(vec, start, end)), Selection.Found(b, Selection.Request(vec, start, end));
    assert |multiset(x)| == |x| && |multiset(y)| == |y|;
  }

  /** The same session on another store. */
  function On(q: Session, b: Selection.Contents): Session { q.(contents := b) }

  lemma LoadsAlike(q: Session, b: Selection.Contents, vec: Vector, start: int, loaded: nat)
    requires AnswerAlike(q.contents, b) && ShortName(vec)
    ensures var x, y := Loads(q, vec, start, loaded), Loads(On(q, b), vec, start, loaded);
            && x.1 == y.1 && (x.0.Some? <==> y.0.Some?)
            && (x.0.Some? ==> multiset(x.0.value) == multiset(y.0.value) && Selection.PlainMetrics(x.0.value))
  {
    hide Selection.Found, Selection.PlainMetrics, AnswerAlike;
    FoundAlike(q.contents, b, vec, start, q.range.end);
  }

  lemma SelectedAlike(q: Session, b: Selection.Contents, vec: Vector, start: int, loaded: nat, o: Outcome)
    requires AnswerAlike(q.contents, b) && ShortName(vec) && Selected(q, vec, start, loaded, o)
    ensures Selected(On(q, b), vec, start, loaded, o)
  {
    hide AnswerAlike, Loads, Selection.Selects, Selection.PlainMetrics;
    LoadsAlike(q, b, vec, start, loaded);
    if o.series.Some? {
      var x, y := Loads(q, vec, start, loaded).0.value, Loads(On(q, b), vec, start, loaded).0.value;
      var raw :| Selection.Selects(raw, x) && o.series.value == SelectedSeries(raw);
      Selection.SelectsPermute(raw, x, y);
    }
  }

  lemma CalledAlike(q: Session, b: Selection.Contents, name: string, args: seq<Expr>, loaded: nat, o: Outcome)
    requires AnswerAlike(q.contents, b) && Called(q, name, args, loaded, o) && (IsRate(name, args) ==> ShortName(args[0].vector))
    ensures Called(On(q, b), name, args, loaded, o)
  {
    hide AnswerAlike, Loads, Selection.Selects, Selection.PlainMetrics;
    if IsRate(name, args) {
      var vec, d := args[0].vector, args[0].duration;
      LoadsAlike(q, b, vec, q.range.start - d, loaded);
      if o.series.Some? {
        var x, y := Loads(q, vec, q.range.start - d, loaded).0.value, Loads(On(q, b), vec, q.range.start - d, loaded).0.value;
        var raw :| Selection.Selects(raw, x) && |o.series.value| == |raw|
                   && (d != 0 ==> o.series.value == RateSeriesOf(raw, d, name == "increase"));
        Selection.SelectsPermute(raw, x, y);
      }
    }
  }

  lemma {:induction false} ExecutesAlike(q: Session, b: Selection.Contents, e: Expr, loaded: nat, o: Outcome)
    requires AnswerAlike(q.contents, b) && ShortNames(e) && Executes(q, e, loaded, o)
    ensures Executes(On(q, b), e, loaded, o)
    decreases e
  {
    hide AnswerAlike, Selected, Called, Aggregated, GridOf;
    match e
    case VectorSelector(vec) => SelectedAlike(q, b, vec, q.range.start, loaded, o);
    case RangeSelector(vec, d) => SelectedAlike(q, b, vec, q.range.start - d, loaded, o);
    case FunctionCall(name, args) => CalledAlike(q, b, name, args, loaded, o);
    case UnaryExpr(op, x) =>
      var i :| Executes(q, x, loaded, i) && o == Outcome(Signed(op, i.series), i.loaded);
      ExecutesAlike(q, b, x, loaded, i);
    case BinaryExpr(left, op, right) =>
      var x :| Executes(q, left, loaded, x) &&
               if x.series.None? then o == x
               else exists y :: Executes(q, right, x.loaded, y) && o == Outcome(Combined(q.math, x.series, y.series, op), y.loaded);
      ExecutesAlike(q, b, left, loaded, x);
      if x.series.Some? {
        var y :| Executes(q, right, x.loaded, y) && o == Outcome(Combined(q.math, x.series, y.series, op), y.loaded);
        ExecutesAlike(q, b, right, x.loaded, y);
      }
    case AggregateExpr(_, _, _, body) =>
      if body.Some? {
        var i :| Executes(q, body.value, loaded, i) && Aggregated(e, i, o);
        ExecutesAlike(q, b, body.value, loaded, i);
      }
    case NumberLiteral(_) =>
    case ParenExpr(x) => ExecutesAlike(q, b, x, loaded, o);
  }

  ghost predicate PlainStore(db: B.Db) { forall k :: k in db ==> |db[k].name| < 65536 && PlainLabels(db[k].labels) }

  lemma StoreAnswers(hash: BadgerKey.Hash, db: B.Db, vec: Vector, start: int, end: int)
    requires B.Keyed(hash, db) && PlainStore(db) && ShortName(vec)
    ensures var req := Selection.Request(vec, start, end);
            var x, y := Selection.Found(Selection.Database(db), req), Selection.Found(Selection.Appended(B.All(db)), req);
            multiset(x) == multiset(y) && Selection.PlainMetrics(x) && Selection.PlainMetrics(y)
  {
    hide PlainLabels, B.Answer, MemoryStorage.Select, B.All, B.Keyed;
    var req := Selection.Request(vec, start, end);
    B.PrefixScanAgrees(hash, db, req);
    var x, y := B.Answer(db, req), MemoryStorage.Select(B.All(db), req);
    forall i | 0 <= i < |y| ensures PlainLabels(y[i].labels) {
      MemoryStorage.SelectCounts(B.All(db), req, y[i]);
      assert y[i] in multiset(B.All(db));
      B.AllHolds(db, y[i]);
    }
    Selection.SamePlain(y, x);
  }

  /** A query has the same outcomes on the keyed store and on the appending store with the same
      contents, for separator-free labels and names below 65536 bytes. */
  lemma {:induction false} StoresAgree(q: Session, hash: BadgerKey.Hash, db: B.Db, e: Expr, loaded: nat, o: Outcome)
    requires B.Keyed(hash, db) && PlainStore(db) && ShortNames(e)
    ensures Executes(On(q, Selection.Database(db)), e, loaded, o) <==> Executes(On(q, Selection.Appended(B.All(db))), e, loaded, o)
  {
    hide B.Keyed, PlainStore, Selection.Found, B.All, ShortNames, Executes, ShortName, Selection.Request, Selection.PlainMetrics;
    var a, b := Selection.Database(db), Selection.Appended(B.All(db));
    forall vec, start, end | ShortName(vec)
      ensures var x, y := Selection.Found(a, Selection.Request(vec, start, end)), Selection.Found(b, Selection.Request(vec, start, end));
              multiset(x) == multiset(y) && Selection.PlainMetrics(x) && Selection.PlainMetrics(y)
    {
      StoreAnswers(hash, db, vec, start, end);
    }
    if Executes(On(q, a), e, loaded, o) { ExecutesAlike(On(q, a), b, e, loaded, o); }
    if Executes(On(q, b), e, loaded, o) { ExecutesAlike(On(q, b), a, e, loaded, o); }
  }

  /* ---- execution on the heap ---- */

  ghost function SessionOf(ex: Selection.Executor, math: Math, range: Range): Session
    reads Selection.StoreOf(ex.backend)
  {
    Session(math, Selection.ContentsOf(ex.backend), ex.failing, ex.maxSamples, range)
  }

  /** No number is read, so that no loop over the instants is run. */
  predicate NumberFree(e: Expr) {
    match e
    case NumberLiteral(_) => false
    case UnaryExpr(_, x) => NumberFree(x)
    case ParenExpr(x) => NumberFree(x)
    case BinaryExpr(left, _, right) => NumberFree(left) && NumberFree(right)
    case AggregateExpr(_, _, _, body) => body.Some? ==> NumberFree(body.value)
    case _ => true
  }

  predicate Terminates(e: Expr, range: Range) { Ends(range) || NumberFree(e) }

  method ConvertSelected(raw: seq<Selection.RawSeries>) returns (series: seq<TimeSeries>)
    ensures series == SelectedSeries(raw)
  {
    series := SelectedSeries(raw);
  }

  /** `executeIncrease` after `executeRate`: the rates are scaled where they stand. */
  method ScaleAll(results: seq<Selection.RateSeriesResult>, d: int) returns (r: seq<Selection.RateSeriesResult>)
    ensures |r| == |results|
    ensures forall i :: 0 <= i < |r| ==> r[i] == Selection.RateSeriesResult(results[i].labels, Scaled(results[i].rates, d))
  {
    hide Scaled;
    r := [];
    for i := 0 to |results|
      invariant |r| == i
      invariant forall j :: 0 <= j < i ==> r[j] == Selection.RateSeriesResult(results[j].labels, Scaled(results[j].rates, d))
    {
      var rates := results[i].rates;
      var points := new RatePoint[|rates|](j requires 0 <= j < |rates| => rates[j]);
      assert points[..] == rates;
      ScaleInPlace(points, d);
      r := r + [Selection.RateSeriesResult(results[i].labels, points[..])];
    }
  }

  method ConvertRates(results: seq<Selection.RateSeriesResult>) returns (series: seq<TimeSeries>)
    ensures |series| == |results|
    ensures forall i :: 0 <= i < |series| ==> series[i] == TimeSeries(results[i].labels, RatePoints(results[i].rates))
  {
    series := [];
    for i := 0 to |results|
      invariant |series| == i
      invariant forall j :: 0 <= j < i ==> series[j] == TimeSeries(results[j].labels, RatePoints(results[j].rates))
    {
      series := series + [TimeSeries(results[i].labels, RatePoints(results[i].rates))];
    }
  }

  /** `executeRate` and `executeIncrease`, on values. */
  method RateValues(ex: Selection.Executor, name: string, args: seq<Expr>, range: Range) returns (series: Option<seq<TimeSeries>>)
    requires name == "rate" || name == "increase"
    modifies ex`samplesLoaded
    ensures forall math :: Called(old(SessionOf(ex, math, range)), name, args, old(ex.samplesLoaded), Outcome(series, ex.samplesLoaded))
  {
    hide Selection.Selects, Selection.Loaded, NaiveRates, Scaled, RatePoints;
    var ok, results := ex.ExecuteRate(args, range.start, range.end);
    if !ok { return None; }
    var d := args[0].duration;
    if name == "increase" { results := ScaleAll(results, d); }
    var converted := ConvertRates(results);
    series := Some(converted);
  }

  /** Reading the series of a result. */
  method ReadSeries(r: Result, ghost values: seq<TimeSeries>) returns (series: seq<TimeSeries>)
    requires |r.series| == |values|
    requires forall i :: 0 <= i < |values| ==>
               r.series[i].labels != null && r.series[i].labels.entries == values[i].labels && r.series[i].Points() == values[i].points
    ensures series == values
  {
    series := [];
    for i := 0 to |r.series|
      invariant series == values[..i]
    {
      var s := r.series[i];
      series := series + [TimeSeries(s.labels.entries, s.Points())];
    }
  }

  lemma SelectorOutcome(q: Session, vec: Vector, loaded: nat, o: Outcome)
    requires Selected(q, vec, q.range.start, loaded, o)
    ensures Executes(q, VectorSelector(vec), loaded, o)
  {
    hide Selected;
  }

  lemma RangeOutcome(q: Session, vec: Vector, d: int, loaded: nat, o: Outcome)
    requires Selected(q, vec, q.range.start - d, loaded, o)
    ensures Executes(q, RangeSelector(vec, d), loaded, o)
  {
    hide Selected;
  }

  lemma CallOutcome(q: Session, name: string, args: seq<Expr>, loaded: nat, o: Outcome)
    requires Called(q, name, args, loaded, o)
    ensures Executes(q, FunctionCall(name, args), loaded, o)
  {
    hide Called;
  }

  lemma NumberOutcome(q: Session, literal: string, loaded: nat)
    requires Ends(q.range)
    ensures Executes(q, NumberLiteral(literal), loaded, Outcome(Some([Constant(q, q.math.numeral(literal))]), loaded))
  {
  }

  lemma ParenOutcome(q: Session, x: Expr, loaded: nat, o: Outcome)
    requires Executes(q, x, loaded, o)
    ensures Executes(q, ParenExpr(x), loaded, o)
  {
    hide Selected, Called, Aggregated;
  }

  /** `executeExpr`: the series of the tree in a result of their own, or null for an error.  The
      results of operands are closed before it returns. */
  method ExecuteExpr(ex: Selection.Executor, math: Math, e: Expr, range: Range, ghost q: Session) returns (r: Result?, ghost o: Outcome)
    requires Terminates(e, range) && q == SessionOf(ex, math, range)
    modifies ex`samplesLoaded
    ensures Yields(r, o.series) && ex.samplesLoaded == o.loaded
    ensures Executes(q, e, old(ex.samplesLoaded), o)
    decreases e, 3
  {
    hide Executes, Selected, Called, Aggregated, Signed, Grid, Steps;
    ghost var loaded := ex.samplesLoaded;
    match e
    case VectorSelector(vec) =>
      r, o := ExecuteSelector(ex, math, vec, range.start, range, q);
      SelectorOutcome(q, vec, loaded, o);
    case RangeSelector(vec, d) =>
      r, o := ExecuteSelector(ex, math, vec, range.start - d, range, q);
      RangeOutcome(q, vec, d, loaded, o);
    case FunctionCall(name, args) =>
      r, o := ExecuteCall(ex, math, name, args, range, q);
      CallOutcome(q, name, args, loaded, o);
    case NumberLiteral(literal) =>
      r := ExecuteNumberLiteral(math.numeral(literal), range);
      o := Outcome(Some([Constant(q, math.numeral(literal))]), loaded);
      NumberOutcome(q, literal, loaded);
    case UnaryExpr(op, x) =>
      ghost var i;
      r, i := ExecuteUnary(ex, math, op, x, range, q);
      UnaryOutcome(q, op, x, loaded, i);
      o := Outcome(Signed(op, i.series), i.loaded);
    case ParenExpr(x) =>
      r, o := ExecuteExpr(ex, math, x, range, q);
      ParenOutcome(q, x, loaded, o);
    case BinaryExpr(left, op, right) =>
      r, o := ExecuteBinary(ex, math, left, op, right, range, q);
    case AggregateExpr(_, _, _, _) =>
      r, o := ExecuteAggregate(ex, math, e, range, q);
  }

  method ExecuteSelector(ex: Selection.Executor, math: Math, vec: Vector, start: int, range: Range, ghost q: Session)
      returns (r: Result?, ghost o: Outcome)
    requires q == SessionOf(ex, math, range)
    modifies ex`samplesLoaded
    ensures Selected(q, vec, start, old(ex.samplesLoaded), o) && ex.samplesLoaded == o.loaded
    ensures Yields(r, o.series)
  {
    hide Selection.Selects, Selection.Loaded, SelectedSeries;
    var ok, raw := ex.ExecuteVectorSelector(vec, start, range.end);
    if !ok { return null, Outcome(None, ex.samplesLoaded); }
    var series := ConvertSelected(raw);
    r := MakeResult(series);
    o := Outcome(Some(series), ex.samplesLoaded);
  }

  /** `executeFunctionCall`. */
  method ExecuteCall(ex: Selection.Executor, math: Math, name: string, args: seq<Expr>, range: Range, ghost q: Session)
      returns (r: Result?, ghost o: Outcome)
    requires q == SessionOf(ex, math, range)
    modifies ex`samplesLoaded
    ensures Called(q, name, args, old(ex.samplesLoaded), o) && ex.samplesLoaded == o.loaded
    ensures Yields(r, o.series)
  {
    hide Called;
    if name != "rate" && name != "increase" {
      NoSuchCall(q, name, args, ex.samplesLoaded);
      return null, Outcome(None, ex.samplesLoaded);
    }
    var series := RateValues(ex, name, args, range);
    o := Outcome(series, ex.samplesLoaded);
    if series.None? { return null, o; }
    r := MakeResult(series.value);
  }

  lemma NoSuchCall(q: Session, name: string, args: seq<Expr>, loaded: nat)
    requires name != "rate" && name != "increase"
    ensures Called(q, name, args, loaded, Outcome(None, loaded))
  {
  }

  /** `executeUnaryExpr`; `i` is the outcome of the operand. */
  method ExecuteUnary(ex: Selection.Executor, math: Math, op: TokenType, x: Expr, range: Range, ghost q: Session)
      returns (r: Result?, ghost i: Outcome)
    requires Terminates(x, range) && q == SessionOf(ex, math, range)
    modifies ex`samplesLoaded
    ensures Yields(r, Signed(op, i.series)) && ex.samplesLoaded == i.loaded
    ensures Executes(q, x, old(ex.samplesLoaded), i)
    decreases UnaryExpr(op, x), 0
  {
    hide Yields, Holds, Executes, Signed, HoldsOne, Fresh, FreshSeries, Apart, Selected, Called, Aggregated, SessionOf, Terminates, NumberFree, Selection.ContentsOf, Loads, Ends;
    r, i := ExecuteExpr(ex, math, x, range, q);
    YieldsFresh(r, i.series);
    ApplySign(op, r, i.series);
    YieldsFresh(r, Signed(op, i.series));
  }

  /** A result that holds the series, each with points of its own. */
  predicate Holds(r: Result?, series: Option<seq<TimeSeries>>)
    reads r, SeriesIn(r)
    reads set s: Series | s in SeriesIn(r) && s.points != null :: s.points
  {
    if series.None? then r == null
    else
      && r != null && |r.series| == |series.value| && Apart(r.series)
      && forall i :: 0 <= i < |r.series| ==> HoldsOne(r.series[i], series.value[i])
  }

  predicate HoldsOne(s: Series, series: TimeSeries)
    reads s, s.points
  {
    s.points != null && s.Points() == series.points && s.labels != null && s.labels.entries == series.labels
  }

  /** Nothing of the result existed before. */
  twostate predicate AllFresh(new r: Result?)
    reads r, SeriesIn(r)
  {
    r != null ==>
      fresh(r) && forall i :: 0 <= i < |r.series| ==> fresh(r.series[i]) && (r.series[i].points != null ==> fresh(r.series[i].points))
  }

  twostate lemma YieldsFresh(new r: Result?, new series: Option<seq<TimeSeries>>)
    ensures Yields(r, series) <==> AllFresh(r) && Holds(r, series)
  {
  }

  /** The sign of `executeUnaryExpr`: a minus negates the points of all series where they stand. */
  method ApplySign(op: TokenType, r: Result?, ghost series: Option<seq<TimeSeries>>)
    requires Holds(r, series)
    modifies set s: Series | s in SeriesIn(r) && s.points != null :: s.points
    ensures Holds(r, Signed(op, series))
  {
    hide NegatedPoints, NegatedSeries;
    if r != null && op == TokenMinus { NegateAll(r.series, series.value); }
  }

  lemma UnaryOutcome(q: Session, op: TokenType, x: Expr, loaded: nat, i: Outcome)
    requires Executes(q, x, loaded, i)
    ensures Executes(q, UnaryExpr(op, x), loaded, Outcome(Signed(op, i.series), i.loaded))
  {
    hide Signed, Selected, Called, Aggregated;
  }

  lemma LeftFails(q: Session, left: Expr, op: TokenType, right: Expr, loaded: nat, x: Outcome)
    requires Executes(q, left, loaded, x) && x.series.None?
    ensures Executes(q, BinaryExpr(left, op, right), loaded, x)
  {
    hide Combined, Selected, Called, Aggregated;
  }

  lemma BinaryOutcome(q: Session, left: Expr, op: TokenType, right: Expr, loaded: nat, x: Outcome, y: Outcome)
    requires Executes(q, left, loaded, x) && x.series.Some? && Executes(q, right, x.loaded, y)
    ensures Executes(q, BinaryExpr(left, op, right), loaded, Outcome(Combined(q.math, x.series, y.series, op), y.loaded))
  {
    hide Combined, Selected, Called, Aggregated;
  }

  method ExecuteBinary(ex: Selection.Executor, math: Math, left: Expr, op: TokenType, right: Expr, range: Range, ghost q: Session)
      returns (r: Result?, ghost o: Outcome)
    requires Terminates(BinaryExpr(left, op, right), range) && q == SessionOf(ex, math, range)
    modifies ex`samplesLoaded
    ensures Yields(r, o.series) && ex.samplesLoaded == o.loaded
    ensures Executes(q, BinaryExpr(left, op, right), old(ex.samplesLoaded), o)
    decreases BinaryExpr(left, op, right), 1
  {
    hide Joined, Fresh, Executes, Selected, Called, Aggregated, Loads, Ends;
    ghost var loaded := ex.samplesLoaded;
    ghost var x, y;
    var l;
    l, x := ExecuteExpr(ex, math, left, range, q);
    YieldedParts(l, x.series);
    if l == null {
      LeftFails(q, left, op, right, loaded, x);
      return null, x;
    }
    r, y := ExecuteRight(ex, math, l, x.series.value, left, op, right, range, q);
    o := Outcome(Combined(math, x.series, y.series, op), y.loaded);
    BinaryOutcome(q, left, op, right, loaded, x, y);
    if r != null { YieldsOne(r, o.series.value[0]); }
  }

  /** The rest of `executeBinaryExpr`, the left result at hand. */
  method ExecuteRight(ex: Selection.Executor, math: Math, l: Result, ghost x: seq<TimeSeries>, ghost left: Expr, op: TokenType, right: Expr,
                      range: Range, ghost q: Session)
      returns (r: Result?, ghost y: Outcome)
    requires Terminates(right, range) && q == SessionOf(ex, math, range) && Single(l, x)
    modifies ex`samplesLoaded, l, l.series
    ensures ex.samplesLoaded == y.loaded
    ensures var o := Combined(math, Some(x), y.series, op);
            (r == null <==> o.None?) && (r != null ==> FreshPoints(r, old(l.series[0].labels), o.value[0].points))
    ensures Executes(q, right, old(ex.samplesLoaded), y)
    decreases BinaryExpr(left, op, right), 0
  {
    hide Joined, Fresh, Executes, Selected, Called, Aggregated, SessionOf, Terminates, NumberFree, Selection.ContentsOf, Loads, Ends;
    var s;
    s, y := ExecuteExpr(ex, math, right, range, q);
    YieldedParts(s, y.series);
    if s == null {
      l.Close();
      return null, y;
    }
    r := CombineAndClose(math, l, s, op);
  }

  lemma NoOperand(q: Session, e: Expr, loaded: nat)
    requires e.AggregateExpr? && e.body.None?
    ensures Executes(q, e, loaded, Outcome(None, loaded))
  {
    hide Selected, Called, Aggregated;
  }

  lemma AggregateOutcome(q: Session, e: Expr, loaded: nat, i: Outcome, o: Outcome)
    requires e.AggregateExpr? && e.body.Some? && Executes(q, e.body.value, loaded, i) && Aggregated(e, i, o)
    ensures Executes(q, e, loaded, o)
  {
    hide Aggregated, Selected, Called;
  }

  /** `executeAggregateExpr`. */
  method ExecuteAggregate(ex: Selection.Executor, math: Math, e: Expr, range: Range, ghost q: Session) returns (r: Result?, ghost o: Outcome)
    requires e.AggregateExpr? && Terminates(e, range) && q == SessionOf(ex, math, range)
    modifies ex`samplesLoaded
    ensures Yields(r, o.series) && ex.samplesLoaded == o.loaded
    ensures Executes(q, e, old(ex.samplesLoaded), o)
    decreases e, 2
  {
    hide Executes, Aggregation.IsAggregation, Selected, Called, SessionOf, Loads;
    ghost var loaded := ex.samplesLoaded;
    ghost var i;
    if e.body.None? {
      NoOperand(q, e, loaded);
      return null, Outcome(None, loaded);
    }
    var inner;
    inner, i := ExecuteExpr(ex, math, e.body.value, range, q);
    if inner == null {
      AggregateOutcome(q, e, loaded, i, Outcome(None, i.loaded));
      return null, Outcome(None, i.loaded);
    }
    var values := ReadSeries(inner, i.series.value);
    var series := AggregateValues(values, e);
    inner.Close();
    o := Outcome(Some(series), i.loaded);
    AggregateOutcome(q, e, loaded, i, o);
    r := MakeResult(series);
  }

  /** Grouping and aggregating the series. */
  method AggregateValues(values: seq<TimeSeries>, e: Expr) returns (series: seq<TimeSeries>)
    requires e.AggregateExpr?
    ensures Aggregation.IsAggregation(series, values, e.aggregation, e.grouping, e.without)
  {
    var names := new string[|e.grouping|](i requires 0 <= i < |e.grouping| => e.grouping[i]);
    assert names[..] == e.grouping;
    series := Aggregation.ExecuteAggregate(values, e.aggregation, names, e.without);
  }

  function PointCount(series: seq<TimeSeries>): nat {
    if series == [] then 0 else PointCount(series[..|series| - 1]) + |series[|series| - 1].points|
  }

  /** `Execute`: the samples loaded are counted from zero, and the points of the result. */
  method Execute(ex: Selection.Executor, math: Math, e: Expr, range: Range) returns (r: Result?, ghost o: Outcome)
    requires Terminates(e, range)
    modifies ex`samplesLoaded
    ensures Yields(r, o.series) && (r != null ==> r.totalSamples == PointCount(o.series.value)) && ex.samplesLoaded == o.loaded
    ensures Executes(old(SessionOf(ex, math, range)), e, 0, o)
  {
    hide Executes, PointCount, Selected, Called, Aggregated, Loads;
    ghost var q := SessionOf(ex, math, range);
    ex.samplesLoaded := 0;
    r, o := ExecuteExpr(ex, math, e, range, q);
    if r == null { return; }
    r.totalSamples := CountPoints(r, o.series.value);
  }

  method CountPoints(r: Result, ghost series: seq<TimeSeries>) returns (total: nat)
    requires |r.series| == |series| && forall i :: 0 <= i < |series| ==> r.series[i].Points() == series[i].points
    ensures total == PointCount(series)
  {
    total := 0;
    for i := 0 to |r.series|
      invariant total == PointCount(series[..i])
    {
      assert series[..i + 1][..i] == series[..i];
      total := total + |r.series[i].Points()|;
    }
    assert series[..|series|] == series;
  }
}
