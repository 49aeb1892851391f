/**
 What arithmetic queries yield (pkg/query/executor.go), written in the arithmetic of the reals.
 */
module Arithmetic {
  import opened Options
  import opened Tokens
  import opened Ast
  import opened Values
  import opened Scalars
  import opened Execution

  /** Literals, parentheses, signs and the four operators. */
  predicate IsArithmetic(e: Expr) {
    match e
    case NumberLiteral(_) => true
    case ParenExpr(x) => IsArithmetic(x)
    case UnaryExpr(op, x) => op in {TokenPlus, TokenMinus} && IsArithmetic(x)
    case BinaryExpr(l, op, r) => op in {TokenPlus, TokenMinus, TokenMultiply, TokenDivide} && IsArithmetic(l) && IsArithmetic(r)
    case _ => false
  }

  /** The value of a tree; None when a divisor is zero. */
  function RealValue(numeral: string -> real, e: Expr): Option<real>
    requires IsArithmetic(e)
  {
    match e
    case NumberLiteral(literal) => Some(numeral(literal))
    case ParenExpr(x) => RealValue(numeral, x)
    case UnaryExpr(op, x) =>
      var v := RealValue(numeral, x);
      if v.Some? && op == TokenMinus then Some(-v.value) else v
    case BinaryExpr(l, op, r) =>
      var v, w := RealValue(numeral, l), RealValue(numeral, r);
      if v.None? || w.None? then None
      else if op == TokenPlus then Some(v.value + w.value)
      else if op == TokenMinus then Some(v.value - w.value)
      else if op == TokenMultiply then Some(v.value * w.value)
      else if w.value == 0.0 then None
      else Some(v.value / w.value)
  }

  /** Somewhere in the tree something is divided by zero. */
  predicate DividesByZero(numeral: string -> real, e: Expr)
    requires IsArithmetic(e)
  {
    match e
    case NumberLiteral(_) => false
    case ParenExpr(x) => DividesByZero(numeral, x)
    case UnaryExpr(_, x) => DividesByZero(numeral, x)
    case BinaryExpr(l, op, r) =>
      DividesByZero(numeral, l) || DividesByZero(numeral, r) || (op == TokenDivide && RealValue(numeral, r) == Some(0.0))
  }

  lemma {:induction false} UndefinedExactly(numeral: string -> real, e: Expr)
    requires IsArithmetic(e)
    ensures RealValue(numeral, e).None? <==> DividesByZero(numeral, e)
  {
    match e
    case NumberLiteral(_) =>
    case ParenExpr(x) => UndefinedExactly(numeral, x);
    case UnaryExpr(_, x) => UndefinedExactly(numeral, x);
    case BinaryExpr(l, _, r) =>
      UndefinedExactly(numeral, l);
      UndefinedExactly(numeral, r);
  }

  function AsValue(v: Option<real>): Value { if v.Some? then Number(v.value) else Undefined }

  lemma {:induction false} ValueIs(math: Math, e: Expr)
    requires IsArithmetic(e)
    ensures Scalar(e) && Eval(math, e) == AsValue(RealValue(math.numeral, e))
  {
    match e
    case NumberLiteral(_) =>
    case ParenExpr(x) => ValueIs(math, x);
    case UnaryExpr(_, x) => ValueIs(math, x);
    case BinaryExpr(l, _, r) =>
      ValueIs(math, l);
      ValueIs(math, r);
  }

  /** One unlabelled series with `v` at the instants `start`, `start + step`, … up to the last one that
      is not after the end. */
  ghost predicate ConstantSeries(range: Range, v: Value, o: Outcome) {
    && o.series.Some? && |o.series.value| == 1 && o.series.value[0].labels == map[]
    && var points := o.series.value[0].points;
       && (forall k :: 0 <= k < |points| ==> points[k] == Point(range.start + k * range.step, v) && points[k].time <= range.end)
       && range.start + |points| * range.step > range.end
  }

  lemma {:induction false} GridEnds(range: Range, v: Value)
    requires Ends(range)
    ensures ConstantSeries(range, v, Outcome(Some([GridOf(range, v)]), 0))
  {
    var n := Steps(range);
    var points := Grid(range, n, v);
    if range.step > 0 {
      StepsAre(range, n);
      forall k | 0 <= k < n ensures points[k].time <= range.end { StepsAre(range, k); }
    }
  }

  lemma {:induction false} SeriesUnique(range: Range, v: Value, o: Outcome, p: Outcome)
    requires ConstantSeries(range, v, o) && ConstantSeries(range, v, p)
    ensures o.series == p.series
  {
    var x, y := o.series.value[0].points, p.series.value[0].points;
    assert |x| < |y| ==> y[|x|].time == range.start + |x| * range.step;
    assert |y| < |x| ==> x[|y|].time == range.start + |y| * range.step;
    assert x == y;
    assert o.series.value == [TimeSeries(map[], x)] && p.series.value == [TimeSeries(map[], y)];
  }

  /** An expression that executes, whatever was loaded before, to a series of one value and loads
      nothing itself. */
  ghost predicate ExecutesTo(q: Session, e: Expr, v: Value) {
    forall loaded, o :: Executes(q, e, loaded, o) <==> o.loaded == loaded && ConstantSeries(q.range, v, o)
  }

  lemma {:induction false} ScalarExecutesTo(q: Session, e: Expr)
    requires Ends(q.range) && Scalar(e)
    ensures ExecutesTo(q, e, Eval(q.math, e))
  {
    hide Executes, Eval, ConstantSeries, GridOf;
    var v := Eval(q.math, e);
    GridEnds(q.range, v);
    forall loaded, o ensures Executes(q, e, loaded, o) <==> o.loaded == loaded && ConstantSeries(q.range, v, o) {
      ScalarExecutes(q, e, loaded, o);
      SameSeries(q.range, v, o, Outcome(Some([GridOf(q.range, v)]), 0));
    }
  }

  lemma SameSeries(range: Range, v: Value, o: Outcome, p: Outcome)
    requires ConstantSeries(range, v, p)
    ensures ConstantSeries(range, v, o) <==> o.series == p.series
  {
    hide ConstantSeries;
    if ConstantSeries(range, v, o) { SeriesUnique(range, v, o, p); }
    if o.series == p.series { SeriesAlone(range, v, o, p); }
  }

  lemma SeriesAlone(range: Range, v: Value, o: Outcome, p: Outcome)
    requires ConstantSeries(range, v, p) && o.series == p.series
    ensures ConstantSeries(range, v, o)
  {
  }

  /** An arithmetic query executes to its value in the arithmetic of the reals, at every instant of
      the grid; the value is undefined exactly when the query divides by zero. */
  lemma {:induction false} ArithmeticExecutes(q: Session, e: Expr)
    requires Ends(q.range) && IsArithmetic(e)
    ensures var v := RealValue(q.math.numeral, e);
            && ExecutesTo(q, e, if v.Some? then Number(v.value) else Undefined)
            && (v.None? <==> DividesByZero(q.math.numeral, e))
  {
    hide ExecutesTo, Eval, RealValue, DividesByZero;
    ValueIs(q.math, e);
    ScalarExecutesTo(q, e);
    UndefinedExactly(q.math.numeral, e);
  }

  /** Power and remainder take the left value first; the comparisons and the set operators, which the
      executor does not implement, and every operator on an undefined value but those two, yield
      undefined values. */
  lemma {:induction false} OperatorsExecute(q: Session, l: Expr, op: TokenType, r: Expr)
    requires Ends(q.range) && Scalar(l) && Scalar(r)
    ensures var v, w := Eval(q.math, l), Eval(q.math, r);
            && (op == TokenPower ==> ExecutesTo(q, BinaryExpr(l, op, r), q.math.pow(v, w)))
            && (op == TokenMod ==> ExecutesTo(q, BinaryExpr(l, op, r), q.math.mod(v, w)))
            && (op in {TokenEqualEqual, TokenNotEqual, TokenLess, TokenLessEqual, TokenGreater, TokenGreaterEqual, TokenAnd, TokenOr, TokenUnless} ==>
                  ExecutesTo(q, BinaryExpr(l, op, r), Undefined))
            && (op != TokenPower && op != TokenMod && (v.Undefined? || w.Undefined?) ==> ExecutesTo(q, BinaryExpr(l, op, r), Undefined))
  {
    hide ExecutesTo;
    ScalarExecutesTo(q, BinaryExpr(l, op, r));
  }
}
