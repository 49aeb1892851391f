/**
 Chart downsampling (pkg/ingest/dashboard.go).
 */
module Downsampling {
  import opened Options

  datatype Point = Point(timestamp: int, value: real)

  function Total(points: seq<Point>): real {
    if points == [] then 0.0 else Total(points[..|points| - 1]) + points[|points| - 1].value
  }

  function Smaller(a: nat, b: nat): nat { if a < b then a else b }

  function Mean(points: seq<Point>): real
    requires points != []
  {
    Total(points) / |points| as real
  }

  lemma MeanTimes(points: seq<Point>)
    requires points != []
    ensures |points| as real * Mean(points) == Total(points)
  {
  }

  /** One point for every `size` points: the first timestamp and the average. */
  function Averaged(points: seq<Point>, size: nat): seq<Point>
    requires size >= 1
    decreases |points|
  {
    if points == [] then []
    else
      var n := Smaller(size, |points|);
      [Point(points[0].timestamp, Mean(points[..n]))] + Averaged(points[n..], size)
  }

  /** The inner loop: the average of `points[i..end]`. */
  method AverageBucket(points: seq<Point>, i: nat, end: nat) returns (p: Point)
    requires i < end <= |points|
    ensures p == Point(points[i].timestamp, Mean(points[i..end]))
  {
    var sumValue, timestamp, count := 0.0, 0, 0;
    for j := i to end
      invariant sumValue == Total(points[i..j]) && count == j - i
      invariant j > i ==> timestamp == points[i].timestamp
    {
      sumValue := sumValue + points[j].value;
      assert points[i..j + 1][..j - i] == points[i..j];
      if j == i { timestamp := points[j].timestamp; }
      count := count + 1;
    }
    p := Point(timestamp, sumValue / count as real);
  }

  /** `downsamplePoints`; None where the source panics, dividing by zero or allocating a
      negative capacity. */
  method DownsamplePoints(points: seq<Point>, maxPoints: int) returns (r: Option<seq<Point>>)
    ensures r.None? <==> |points| > maxPoints && maxPoints < 1
    ensures |points| <= maxPoints ==> r == Some(points)
    ensures |points| > maxPoints >= 1 ==> |points| / maxPoints >= 1 && r == Some(Averaged(points, |points| / maxPoints))
  {
    if |points| <= maxPoints { return Some(points); }
    if maxPoints < 1 { return None; }
    var bucketSize := |points| / maxPoints;
    AtLeastOne(|points|, maxPoints);
    if bucketSize < 1 { bucketSize := 1; }
    var downsampled := AverageAll(points, bucketSize);
    r := Some(downsampled);
  }

  /** The outer loop. */
  method AverageAll(points: seq<Point>, bucketSize: nat) returns (downsampled: seq<Point>)
    requires bucketSize >= 1
    ensures downsampled == Averaged(points, bucketSize)
  {
    hide Mean, Averaged;
    downsampled := [];
    var i := 0;
    assert points[0..] == points;
    while i < |points|
      invariant 0 <= i && downsampled + Averaged(points[Smaller(i, |points|)..], bucketSize) == Averaged(points, bucketSize)
      decreases |points| - i
    {
      var end := i + bucketSize;
      if end > |points| { end := |points|; }
      var p := AverageBucket(points, i, end);
      NextBucket(points, i, end, bucketSize);
      downsampled := downsampled + [p];
      i := i + bucketSize;
    }
    NoneLeft(points, i, bucketSize);
  }

  lemma AtLeastOne(n: nat, k: nat)
    requires n > k >= 1
    ensures n / k >= 1
  {
  }

  lemma NoneLeft(points: seq<Point>, i: nat, size: nat)
    requires size >= 1
    ensures i >= |points| ==> Averaged(points[Smaller(i, |points|)..], size) == []
  {
  }

  lemma {:induction false} NextBucket(points: seq<Point>, i: nat, end: nat, size: nat)
    requires size >= 1 && i < |points| && end == Smaller(i + size, |points|)
    ensures Averaged(points[i..], size) ==
            [Point(points[i].timestamp, Mean(points[i..end]))] + Averaged(points[end..], size)
  {
    var rest := points[i..];
    var n := Smaller(size, |rest|);
    assert rest[..n] == points[i..end] && rest[n..] == points[end..];
  }

  /* ---- how many points ---- */

  /** `n / size`, rounded up. */
  function Ceiling(n: nat, size: nat): nat
    requires size >= 1
  {
    if n == 0 then 0 else 1 + Ceiling(n - Smaller(size, n), size)
  }

  lemma {:induction false} AveragedLength(points: seq<Point>, size: nat)
    requires size >= 1
    ensures |Averaged(points, size)| == Ceiling(|points|, size)
    decreases |points|
  {
    if points != [] { AveragedLength(points[Smaller(size, |points|)..], size); }
  }

  lemma {:induction false} CeilingBounds(n: nat, size: nat)
    requires size >= 1
    ensures Ceiling(n, size) * size >= n
    ensures n > 0 ==> (Ceiling(n, size) - 1) * size < n
    decreases n
  {
    if n > size { CeilingBounds(n - size, size); }
  }

  lemma {:induction false} Scale(a: int, b: int, size: nat)
    ensures a < b ==> a * size + size <= b * size
  {
    if a < b {
      var d: nat := b - a - 1;
      NonNegative(d, size);
      assert b * size == (a + 1 + d) * size == a * size + size + d * size;
    }
  }

  lemma NonNegative(a: nat, b: nat)
    ensures a * b >= 0
  {
  }

  /** `c` buckets of `size` cover `n` points, and one fewer does not. */
  lemma {:induction false} BucketCount(n: nat, maxPoints: nat, size: nat, c: nat)
    requires size >= 1 && maxPoints >= 1
    requires maxPoints * size <= n < maxPoints * size + maxPoints
    requires c * size >= n > (c - 1) * size
    ensures maxPoints <= c <= 2 * maxPoints - 1
  {
    Scale(c, maxPoints, size);
    Scale(2 * maxPoints - 2, c - 1, size);
    assert (2 * maxPoints - 1) * size == maxPoints * size + (maxPoints - 1) * size;
    NonNegative(maxPoints - 1, size - 1);
    assert (maxPoints - 1) * (size - 1) == (maxPoints - 1) * size - (maxPoints - 1);
  }

  /** At least the wanted number of points, and less than twice as many. */
  lemma {:induction false} DownsampledLength(points: seq<Point>, maxPoints: nat)
    requires |points| > maxPoints >= 1
    ensures |points| / maxPoints >= 1
    ensures maxPoints <= |Averaged(points, |points| / maxPoints)| <= 2 * maxPoints - 1
  {
    hide Averaged, Ceiling;
    var n := |points|;
    AtLeastOne(n, maxPoints);
    var size := n / maxPoints;
    AveragedLength(points, size);
    CeilingBounds(n, size);
    BucketCount(n, maxPoints, size, Ceiling(n, size));
  }

  lemma {:induction false} BucketsWanted(n: nat, maxPoints: nat, size: nat, rest: nat, c: nat)
    requires n == maxPoints * size + rest && c * size >= n > (c - 1) * size
    ensures c <= maxPoints <==> rest == 0
  {
    Scale(maxPoints, c - 1, size);
    Scale(c, maxPoints, size);
    assert c - 1 == maxPoints ==> (c - 1) * size == maxPoints * size;
    assert c == maxPoints ==> c * size == maxPoints * size;
  }

  /** No more than the wanted number of points come back exactly when it divides the number of
      points given. */
  lemma {:induction false} WantedNumber(points: seq<Point>, maxPoints: nat)
    requires |points| > maxPoints >= 1
    ensures |points| / maxPoints >= 1
    ensures |Averaged(points, |points| / maxPoints)| <= maxPoints <==> |points| % maxPoints == 0
  {
    hide Averaged, Ceiling;
    var n := |points|;
    AtLeastOne(n, maxPoints);
    var size := n / maxPoints;
    AveragedLength(points, size);
    CeilingBounds(n, size);
    BucketsWanted(n, maxPoints, size, n % maxPoints, Ceiling(n, size));
  }

  /** The upper bound is reached, so more than the wanted number may come back. */
  lemma BoundReached(points: seq<Point>, maxPoints: nat)
    requires maxPoints >= 2 && |points| == 2 * maxPoints - 1
    ensures |points| / maxPoints == 1 && |Averaged(points, 1)| == 2 * maxPoints - 1
  {
    hide Averaged, Ceiling;
    QuotientOne(|points|, maxPoints);
    AveragedLength(points, 1);
    CeilingBounds(|points|, 1);
  }

  lemma QuotientOne(n: nat, k: nat)
    requires k <= n < 2 * k
    ensures n / k == 1
  {
  }

  /* ---- which points ---- */

  /** Point `k` of the result stands for the points from `k * size` on: its timestamp is the
      first of them, so the timestamps are a subsequence that starts with the first. */
  lemma {:induction false} AveragedAt(points: seq<Point>, size: nat, k: nat)
    requires size >= 1 && k < |Averaged(points, size)|
    ensures k * size < |points| && Averaged(points, size)[k].timestamp == points[k * size].timestamp
    decreases |points|
  {
    hide Averaged, Mean;
    AveragedStep(points, size);
    if k == 0 {
      Nothing(size);
    } else {
      var n := Smaller(size, |points|);
      AveragedAt(points[n..], size, k - 1);
      OneMore(k, size);
      Later(points, n, (k - 1) * size);
    }
  }

  lemma Nothing(size: nat)
    ensures 0 * size == 0
  {
  }

  lemma Later(points: seq<Point>, n: nat, j: int)
    requires n <= |points| && 0 <= j < |points[n..]|
    ensures points[n..][j] == points[n + j]
  {
  }

  lemma OneMore(k: nat, size: nat)
    requires k > 0
    ensures k * size == (k - 1) * size + size && (k - 1) * size >= 0
  {
    NonNegative(k - 1, size);
  }

  lemma AveragedStep(points: seq<Point>, size: nat)
    requires size >= 1
    ensures var n := Smaller(size, |points|);
            Averaged(points, size) ==
            if points == [] then []
            else [Point(points[0].timestamp, Mean(points[..n]))] + Averaged(points[n..], size)
  {
  }

  /** The values weighted with the sizes of their buckets, of `n` points in all. */
  function Weighted(averages: seq<Point>, n: nat, size: nat): real
    requires size >= 1
    decreases |averages|
  {
    if averages == [] then 0.0
    else
      var k := Smaller(size, n);
      k as real * averages[0].value + Weighted(averages[1..], n - k, size)
  }

  lemma {:induction false} TotalAppend(a: seq<Point>, b: seq<Point>)
    ensures Total(a + b) == Total(a) + Total(b)
    decreases |b|
  {
    if b == [] {
      assert a + b == a;
    } else {
      assert (a + b)[..|a + b| - 1] == a + b[..|b| - 1];
      TotalAppend(a, b[..|b| - 1]);
    }
  }

  lemma NoTotal()
    ensures Total([]) == 0.0
  {
  }

  /** Nothing is lost: bucket sizes times averages add up to the sum of all values. */
  lemma {:induction false} WeightedTotal(points: seq<Point>, size: nat)
    requires size >= 1
    ensures Weighted(Averaged(points, size), |points|, size) == Total(points)
    decreases |points|
  {
    hide Mean, Total, Averaged, Weighted;
    NoTotal();
    AveragedStep(points, size);
    if points == [] {
      WeightedStep([], 0, size);
    } else {
      var n := Smaller(size, |points|);
      var first, rest := Point(points[0].timestamp, Mean(points[..n])), Averaged(points[n..], size);
      WeightedStep([first] + rest, |points|, size);
      assert ([first] + rest)[1..] == rest;
      WeightedTotal(points[n..], size);
      TotalAppend(points[..n], points[n..]);
      assert points == points[..n] + points[n..];
      MeanTimes(points[..n]);
    }
  }

  lemma WeightedStep(averages: seq<Point>, n: nat, size: nat)
    requires size >= 1
    ensures Weighted(averages, n, size) ==
            if averages == [] then 0.0
            else Smaller(size, n) as real * averages[0].value + Weighted(averages[1..], n - Smaller(size, n), size)
  {
  }
}
