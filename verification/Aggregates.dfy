/**
 Aggregates and their encoding as metrics (pkg/compaction/types.go).
 */
module Aggregates {
  import opened Integers
  import opened FixedPoint
  import opened Options
  import opened Decimal
  import opened SeriesKeys
  import opened Metrics

  /** The statistics of a non-empty collection of values. */
  datatype Stats = Stats(sum: real, count: nat, min: real, max: real)

  function Min(a: real, b: real): real { if b < a then b else a }
  function Max(a: real, b: real): real { if b > a then b else a }

  function Single(v: real): Stats { Stats(v, 1, v, v) }

  function Merge(a: Stats, b: Stats): Stats {
    Stats(a.sum + b.sum, a.count + b.count, Min(a.min, b.min), Max(a.max, b.max))
  }

  datatype Aggregate = Aggregate(name: string, labels: Labels, timestamp: int, resolution: string, stats: Stats)

  function Average(s: Stats): real {
    if s.count == 0 then 0.0 else s.sum / s.count as real
  }

  const SUM := "__sum__"
  const COUNT := "__count__"
  const MIN := "__min__"
  const MAX := "__max__"

  function MetadataLabels(resolution: string, s: Stats): Labels {
    map[RESOLUTION := resolution, SUM := FormatFloat(s.sum), COUNT := Digits(s.count),
        MIN := FormatFloat(s.min), MAX := FormatFloat(s.max)]
  }

  function ToMetric(a: Aggregate): Metric {
    Metric(a.name, Gauge, Average(a.stats), a.labels + MetadataLabels(a.resolution, a.stats), a.timestamp)
  }

  /** The labels that survive the encoding: neither empty nor starting with `_`. */
  predicate IsUserLabel(k: string) { |k| > 0 && k[0] != '_' }

  function Kept(labels: Labels): Labels { map k | k in labels && IsUserLabel(k) :: labels[k] }

  /** None for a metric that is no aggregate or whose metadata does not scan. */
  function FromMetric(m: Metric): Option<Aggregate> {
    if RESOLUTION !in m.labels then None
    else
      var sum, count := ScanFloat(Lookup(m.labels, SUM)), ScanCount(Lookup(m.labels, COUNT));
      var min, max := ScanFloat(Lookup(m.labels, MIN)), ScanFloat(Lookup(m.labels, MAX));
      if sum == None || count == None || min == None || max == None then None
      else
        Some(Aggregate(m.name, Kept(m.labels), m.timestamp, m.labels[RESOLUTION],
                       Stats(sum.value, count.value, min.value, max.value)))
  }

  lemma MetadataUpdates(l: Labels, resolution: string, s: Stats)
    ensures l[RESOLUTION := resolution][SUM := FormatFloat(s.sum)][COUNT := Digits(s.count)]
             [MIN := FormatFloat(s.min)][MAX := FormatFloat(s.max)] == l + MetadataLabels(resolution, s)
  {
    hide FormatFloat, Digits;
  }

  /** `ToMetric`: the label loop, then the metadata. */
  method EncodeAggregate(a: Aggregate) returns (m: Metric)
    ensures m == ToMetric(a)
  {
    hide FormatFloat, Digits, MetadataLabels;
    var labels: Labels := map[];
    var left := a.labels.Keys;
    while left != {}
      invariant left <= a.labels.Keys
      invariant labels == map k | k in a.labels && k !in left :: a.labels[k]
      decreases |left|
    {
      var k :| k in left;
      labels := labels[k := a.labels[k]];
      left := left - {k};
    }
    assert labels == a.labels;
    MetadataUpdates(labels, a.resolution, a.stats);
    labels := labels[RESOLUTION := a.resolution];
    labels := labels[SUM := FormatFloat(a.stats.sum)];
    labels := labels[COUNT := Digits(a.stats.count)];
    labels := labels[MIN := FormatFloat(a.stats.min)];
    labels := labels[MAX := FormatFloat(a.stats.max)];
    m := Metric(a.name, Gauge, Average(a.stats), labels, a.timestamp);
  }

  /** `FromMetric`: scanning the metadata, then the label loop. */
  method DecodeAggregate(m: Metric) returns (r: Option<Aggregate>)
    ensures r == FromMetric(m)
  {
    hide ScanFloat, ScanCount, Lookup;
    if RESOLUTION !in m.labels { return None; }
    var sum := ScanFloat(Lookup(m.labels, SUM));
    if sum == None { return None; }
    var count := ScanCount(Lookup(m.labels, COUNT));
    if count == None { return None; }
    var min := ScanFloat(Lookup(m.labels, MIN));
    if min == None { return None; }
    var max := ScanFloat(Lookup(m.labels, MAX));
    if max == None { return None; }
    var user: Labels := map[];
    var left := m.labels.Keys;
    while left != {}
      invariant left <= m.labels.Keys
      invariant user == map k | k in m.labels && k !in left && IsUserLabel(k) :: m.labels[k]
      decreases |left|
    {
      var k :| k in left;
      if IsUserLabel(k) { user := user[k := m.labels[k]]; }
      left := left - {k};
    }
    assert user == Kept(m.labels);
    r := Some(Aggregate(m.name, user, m.timestamp, m.labels[RESOLUTION],
                        Stats(sum.value, count.value, min.value, max.value)));
  }

  function RoundedStats(s: Stats): Stats {
    Stats(Rounded(s.sum), s.count, Rounded(s.min), Rounded(s.max))
  }

  lemma MetadataIsInternal()
    ensures forall k :: k in {RESOLUTION, SUM, COUNT, MIN, MAX} ==> !IsUserLabel(k)
    ensures RESOLUTION != SUM && RESOLUTION != COUNT && RESOLUTION != MIN && RESOLUTION != MAX
    ensures SUM != COUNT && SUM != MIN && SUM != MAX && COUNT != MIN && COUNT != MAX && MIN != MAX
  {
    assert RESOLUTION[2] == 'r' && SUM[2] == 's' && COUNT[2] == 'c' && MIN[2] == 'm' && MAX[2] == 'm';
    assert MIN[3] == 'i' && MAX[3] == 'a';
  }

  /** Decoding an encoded aggregate: everything but the user labels that look internal comes
      back, the count exactly and the other statistics as `%f` rounds them. */
  lemma {:induction false} DecodeEncode(a: Aggregate)
    requires a.stats.count < TWO64
    ensures FromMetric(ToMetric(a)) == Some(a.(labels := Kept(a.labels), stats := RoundedStats(a.stats)))
  {
    hide ScanFloat, ScanCount, FormatFloat, Digits, Rounded;
    MetadataIsInternal();
    var m := ToMetric(a);
    ScanFormat(a.stats.sum);
    ScanDigits(a.stats.count);
    ScanFormat(a.stats.min);
    ScanFormat(a.stats.max);
    assert Lookup(m.labels, SUM) == FormatFloat(a.stats.sum);
    assert Lookup(m.labels, COUNT) == Digits(a.stats.count);
    assert Lookup(m.labels, MIN) == FormatFloat(a.stats.min);
    assert Lookup(m.labels, MAX) == FormatFloat(a.stats.max);
    assert Kept(m.labels) == Kept(a.labels);
  }

  /** The encoding keeps all labels exactly when none of them looks internal or is empty. */
  lemma {:induction false} LabelsSurvive(a: Aggregate)
    requires a.stats.count < TWO64
    ensures var r := FromMetric(ToMetric(a));
            r.Some? && (r.value.labels == a.labels <==> forall k :: k in a.labels ==> |k| > 0 && k[0] != '_')
  {
    hide FromMetric, ToMetric;
    DecodeEncode(a);
    if Kept(a.labels) == a.labels {
      forall k | k in a.labels ensures IsUserLabel(k) { assert k in Kept(a.labels); }
    }
  }

  ghost predicate MicroStats(s: Stats) { IsMicro(s.sum) && IsMicro(s.min) && IsMicro(s.max) }

  /** Statistics in whole millionths come back exactly. */
  lemma {:induction false} DecodeEncodeExact(a: Aggregate)
    requires a.stats.count < TWO64 && MicroStats(a.stats)
    requires forall k :: k in a.labels ==> IsUserLabel(k)
    ensures FromMetric(ToMetric(a)) == Some(a)
  {
    DecodeEncode(a);
    LabelsSurvive(a);
    RoundedExact(a.stats.sum);
    RoundedExact(a.stats.min);
    RoundedExact(a.stats.max);
  }

  lemma MergeMicro(a: Stats, b: Stats)
    requires MicroStats(a) && MicroStats(b)
    ensures MicroStats(Merge(a, b))
  {
    MicroSum(a.sum, b.sum);
  }

  const HALF_MICRO := 0.0000005

  /** How far rounding moves merged statistics: half a millionth per merged sum, and half a
      millionth in all for the bounds. */
  ghost predicate Near(exact: Stats, stored: Stats, k: nat) {
    && stored.count == exact.count
    && Abs(stored.sum - exact.sum) <= k as real * HALF_MICRO
    && Abs(stored.min - exact.min) <= HALF_MICRO
    && Abs(stored.max - exact.max) <= HALF_MICRO
  }

  lemma RoundedNear(s: Stats)
    ensures Near(s, RoundedStats(s), 1)
  {
  }

  lemma MergeNear(a: Stats, a': Stats, j: nat, b: Stats, b': Stats, k: nat)
    requires Near(a, a', j) && Near(b, b', k)
    ensures Near(Merge(a, b), Merge(a', b'), j + k)
  {
    assert (j + k) as real * HALF_MICRO == j as real * HALF_MICRO + k as real * HALF_MICRO;
  }
}
