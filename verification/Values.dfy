/**
 The values and points of the executor (pkg/query/executor.go).
 */
module Values {
  import opened SeriesKeys

  /** A float; `Undefined` is Go's NaN. */
  datatype Value = Number(value: real) | Undefined

  datatype Point = Point(time: int, value: Value)

  datatype TimeSeries = TimeSeries(labels: Labels, points: seq<Point>)

  function Plus(a: Value, b: Value): Value {
    if a.Number? && b.Number? then Number(a.value + b.value) else Undefined
  }

  /** A comparison with NaN is false. */
  predicate Greater(a: Value, b: Value) { a.Number? && b.Number? && a.value > b.value }

  ghost predicate Increasing(points: seq<Point>) {
    forall i, j :: 0 <= i < j < |points| ==> points[i].time < points[j].time
  }

  /** The values at instant `t`, in order. */
  function At(points: seq<Point>, t: int): seq<Value> {
    if points == [] then []
    else
      var rest := At(points[..|points| - 1], t);
      if points[|points| - 1].time == t then rest + [points[|points| - 1].value] else rest
  }

  lemma {:induction false} AtNothing(points: seq<Point>, t: int)
    ensures At(points, t) == [] <==> forall i :: 0 <= i < |points| ==> points[i].time != t
  {
    if points != [] { AtNothing(points[..|points| - 1], t); }
  }

  lemma {:induction false} AtIndex(points: seq<Point>, i: nat)
    requires Increasing(points) && i < |points|
    ensures At(points, points[i].time) == [points[i].value]
  {
    var front := points[..|points| - 1];
    if i < |front| { AtIndex(front, i); } else { AtNothing(front, points[i].time); }
  }

  /** Points in strictly increasing order are determined by what stands at each instant. */
  lemma {:induction false} PointsUnique(p: seq<Point>, q: seq<Point>)
    requires Increasing(p) && Increasing(q) && forall t :: At(p, t) == At(q, t)
    ensures p == q
    decreases |p|
  {
    hide At;
    if p == [] {
      if q != [] { AtIndex(q, |q| - 1); AtNothing(p, q[|q| - 1].time); }
    } else {
      var x := p[|p| - 1];
      AtIndex(p, |p| - 1);
      AtNothing(q, x.time);
      var y := q[|q| - 1];
      AtIndex(q, |q| - 1);
      AtNothing(p, y.time);
      assert x == y;
      var p', q' := p[..|p| - 1], q[..|q| - 1];
      forall t ensures At(p', t) == At(q', t) {
        LastDropped(p, t);
        LastDropped(q, t);
      }
      PointsUnique(p', q');
    }
  }

  lemma LastDropped(p: seq<Point>, t: int)
    requires Increasing(p) && p != []
    ensures At(p[..|p| - 1], t) == if t == p[|p| - 1].time then [] else At(p, t)
  {
    AtNothing(p[..|p| - 1], t);
  }
}
