/**
 What the statistics of a bucket are (pkg/compaction/compactor.go), stated on the samples folded
 under its key.
 */
module Statistics {
  import opened FixedPoint
  import opened Decimal
  import opened Options
  import opened SeriesKeys
  import opened Metrics
  import opened Aggregates
  import opened Compactor
  import opened CompactionLaws

  function Total(xs: seq<real>): real { if xs == [] then 0.0 else Total(xs[..|xs| - 1]) + xs[|xs| - 1] }

  /** Number, sum, least and greatest of some values. */
  ghost predicate Describes(s: Stats, xs: seq<real>) {
    && xs != [] && s.count == |xs| && s.sum == Total(xs)
    && s.min in xs && s.max in xs
    && forall i :: 0 <= i < |xs| ==> s.min <= xs[i] <= s.max
  }

  /** The values of the raw samples with a five-minute key. */
  ghost function RawValues(ms: seq<Metric>, key: string): seq<real> {
    if ms == [] then []
    else
      var rest, m := RawValues(ms[..|ms| - 1], key), ms[|ms| - 1];
      if Lookup(m.labels, "__resolution__") == "" && RawKey(m) == key then rest + [m.value] else rest
  }

  /** The values of the samples with an hourly key. */
  ghost function HourValues(ms: seq<Metric>, key: string): seq<real> {
    if ms == [] then []
    else
      var rest, m := HourValues(ms[..|ms| - 1], key), ms[|ms| - 1];
      if RawHourKey(m) == key then rest + [m.value] else rest
  }

  lemma OneDescribed(v: real)
    ensures Describes(Single(v), [v])
  {
    assert [v][..0] == [];
  }

  lemma OneMoreDescribed(s: Stats, xs: seq<real>, v: real)
    requires Describes(s, xs)
    ensures Describes(Merge(s, Single(v)), xs + [v])
  {
    var ys := xs + [v];
    assert ys[..|ys| - 1] == xs && ys[|xs|] == v;
    assert forall x :: x in xs ==> x in ys;
    assert forall i :: 0 <= i < |xs| ==> ys[i] == xs[i];
  }

  /** A five-minute bucket holds the number, the sum, the least and the greatest of the raw samples
      with its key, and there is one for every key of a raw sample. */
  lemma {:induction false} RawStatistics(ms: seq<Metric>, key: string)
    ensures key in FoldRaw(ms) <==> RawValues(ms, key) != []
    ensures key in FoldRaw(ms) ==> Describes(FoldRaw(ms)[key].stats, RawValues(ms, key))
  {
    hide RawKey, Describes, Single, Merge;
    if ms != [] {
      var front, m := ms[..|ms| - 1], ms[|ms| - 1];
      RawStatistics(front, key);
      OneDescribed(m.value);
      assert [] + [m.value] == [m.value];
      if key in FoldRaw(front) { OneMoreDescribed(FoldRaw(front)[key].stats, RawValues(front, key), m.value); }
    }
  }

  /** The same for samples folded straight into hours. */
  lemma {:induction false} HourStatistics(ms: seq<Metric>, key: string)
    ensures key in FoldHours(ms) <==> HourValues(ms, key) != []
    ensures key in FoldHours(ms) ==> Describes(FoldHours(ms)[key].stats, HourValues(ms, key))
  {
    hide RawHourKey, Describes, Single, Merge;
    if ms != [] {
      var front, m := ms[..|ms| - 1], ms[|ms| - 1];
      HourStatistics(front, key);
      OneDescribed(m.value);
      assert [] + [m.value] == [m.value];
      if key in FoldHours(front) { OneMoreDescribed(FoldHours(front)[key].stats, HourValues(front, key), m.value); }
      assert HourEntries(ms)[..|ms| - 1] == HourEntries(front);
      LastOfFold(HourEntries(ms));
    }
  }

  /* ---- aggregates of aggregates ---- */

  function CountOf(parts: seq<Stats>): nat { if parts == [] then 0 else CountOf(parts[..|parts| - 1]) + parts[|parts| - 1].count }

  function SumOf(parts: seq<Stats>): real { if parts == [] then 0.0 else SumOf(parts[..|parts| - 1]) + parts[|parts| - 1].sum }

  /** All counts, all sums, the least of the minima and the greatest of the maxima. */
  ghost predicate Combines(s: Stats, parts: seq<Stats>) {
    && parts != [] && s.count == CountOf(parts) && s.sum == SumOf(parts)
    && (exists i :: 0 <= i < |parts| && parts[i].min == s.min)
    && (exists i :: 0 <= i < |parts| && parts[i].max == s.max)
    && forall i :: 0 <= i < |parts| ==> s.min <= parts[i].min && parts[i].max <= s.max
  }

  /** The five-minute aggregates with an hourly key. */
  ghost function FiveParts(ms: seq<Metric>, key: string): seq<Stats> {
    if ms == [] then []
    else
      var rest, a := FiveParts(ms[..|ms| - 1], key), AsFive(ms[|ms| - 1]);
      if a.Some? && FiveKey(a.value) == key then rest + [a.value.stats] else rest
  }

  lemma OneCombined(s: Stats)
    ensures Combines(s, [s])
  {
    assert [s][..0] == [] && [s][0] == s;
  }

  lemma OneMoreCombined(s: Stats, parts: seq<Stats>, t: Stats)
    requires Combines(s, parts)
    ensures Combines(Merge(s, t), parts + [t])
  {
    var more := parts + [t];
    assert more[..|more| - 1] == parts && more[|parts|] == t;
    assert forall i :: 0 <= i < |parts| ==> more[i] == parts[i];
    var i :| 0 <= i < |parts| && parts[i].min == s.min;
    var j :| 0 <= j < |parts| && parts[j].max == s.max;
    assert more[i].min == s.min && more[j].max == s.max;
  }

  /** An hourly bucket combines the five-minute aggregates of its hour. */
  lemma {:induction false} FiveStatistics(ms: seq<Metric>, key: string)
    ensures key in FoldFive(ms) <==> FiveParts(ms, key) != []
    ensures key in FoldFive(ms) ==> Combines(FoldFive(ms)[key].stats, FiveParts(ms, key))
  {
    hide FiveKey, AsFive, Combines, Merge;
    if ms != [] {
      var front, a := ms[..|ms| - 1], AsFive(ms[|ms| - 1]);
      FiveStatistics(front, key);
      if a.Some? {
        OneCombined(a.value.stats);
        assert [] + [a.value.stats] == [a.value.stats];
        if key in FoldFive(front) { OneMoreCombined(FoldFive(front)[key].stats, FiveParts(front, key), a.value.stats); }
      }
    }
  }

  /* ---- what is written ---- */

  ghost predicate Extremes(xs: seq<real>, least: real, greatest: real) {
    least in xs && greatest in xs && forall i :: 0 <= i < |xs| ==> least <= xs[i] <= greatest
  }

  lemma {:induction false} FiveMinuteResolution(ms: seq<Metric>, key: string)
    requires key in FoldRaw(ms)
    ensures FoldRaw(ms)[key].resolution == "5m"
  {
    hide RawKey;
    var front := ms[..|ms| - 1];
    if key in FoldRaw(front) { FiveMinuteResolution(front, key); }
  }

  /** The metric written for a five-minute bucket: its value is the mean of the samples, and its
      labels tell their number, sum, least and greatest. */
  lemma {:induction false} WrittenMean(ms: seq<Metric>, key: string)
    requires key in FoldRaw(ms)
    ensures var w, xs := ToMetric(FoldRaw(ms)[key]), RawValues(ms, key);
            && xs != [] && w.value == Total(xs) / |xs| as real
            && "__count__" in w.labels && w.labels["__count__"] == Digits(|xs|)
            && "__sum__" in w.labels && w.labels["__sum__"] == FormatFloat(Total(xs))
            && "__resolution__" in w.labels && w.labels["__resolution__"] == "5m"
            && exists least, greatest :: Extremes(xs, least, greatest)
                 && "__min__" in w.labels && w.labels["__min__"] == FormatFloat(least)
                 && "__max__" in w.labels && w.labels["__max__"] == FormatFloat(greatest)
  {
    hide FoldRaw, FormatFloat, Digits, Total, RawValues;
    RawStatistics(ms, key);
    var s := FoldRaw(ms)[key].stats;
    assert Extremes(RawValues(ms, key), s.min, s.max);
    FiveMinuteResolution(ms, key);
  }
}
