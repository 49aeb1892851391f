/**
 Laws of the two folds: they do not depend on the order of samples, and folding through
 five-minute aggregates gives the hourly aggregates of the raw samples.
 */
module CompactionLaws {
  import opened Collections
  import opened Instants
  import opened Integers
  import opened FixedPoint
  import opened Options
  import opened Strings
  import opened SeriesKeys
  import opened Metrics
  import opened MemoryStorage
  import opened Aggregates
  import opened Compactor

  /* ---- folding keyed contributions ---- */

  datatype Entry = Entry(key: string, agg: Aggregate)

  function Fold(es: seq<Entry>): Buckets {
    if es == [] then map[]
    else Absorb(Fold(es[..|es| - 1]), es[|es| - 1].key, es[|es| - 1].agg)
  }

  function Plus(a: Option<Stats>, b: Option<Stats>): Option<Stats> {
    if a.None? then b else if b.None? then a else Some(Merge(a.value, b.value))
  }

  lemma PlusCommutes(a: Option<Stats>, b: Option<Stats>)
    ensures Plus(a, b) == Plus(b, a)
  {
  }

  lemma PlusAssociates(a: Option<Stats>, b: Option<Stats>, c: Option<Stats>)
    ensures Plus(Plus(a, b), c) == Plus(a, Plus(b, c))
  {
  }

  function Part(e: Entry, keys: set<string>): Option<Stats> {
    if e.key in keys then Some(e.agg.stats) else None
  }

  /** The merged statistics of the contributions whose key is in `keys`. */
  function Total(es: seq<Entry>, keys: set<string>): Option<Stats> {
    if es == [] then None else Plus(Total(es[..|es| - 1], keys), Part(es[|es| - 1], keys))
  }

  function Keys(es: seq<Entry>): set<string> { set i | 0 <= i < |es| :: es[i].key }

  lemma KeysOfLast(es: seq<Entry>)
    requires es != []
    ensures Keys(es) == Keys(es[..|es| - 1]) + {es[|es| - 1].key}
  {
    var front := es[..|es| - 1];
    forall k | k in Keys(es) ensures k in Keys(front) + {es[|es| - 1].key} {
      var i :| 0 <= i < |es| && es[i].key == k;
      if i < |front| { assert front[i].key == k; }
    }
    forall k | k in Keys(front) ensures k in Keys(es) {
      var i :| 0 <= i < |front| && front[i].key == k;
      assert es[i].key == k;
    }
  }

  /** A fold has a bucket for every key, holding the merged statistics of its contributions. */
  lemma {:induction false} FoldTotals(es: seq<Entry>)
    ensures Fold(es).Keys == Keys(es)
    ensures forall k :: k in Fold(es) ==> Total(es, {k}) == Some(Fold(es)[k].stats)
    ensures forall k :: k !in Fold(es) ==> Total(es, {k}) == None
    decreases |es|
  {
    if es != [] {
      FoldTotals(es[..|es| - 1]);
      KeysOfLast(es);
    }
  }

  /** Contributions with one key describe one bucket. */
  ghost predicate Coherent(es: seq<Entry>) {
    forall i, j :: 0 <= i < |es| && 0 <= j < |es| && es[i].key == es[j].key ==>
      es[i].agg == es[j].agg.(stats := es[i].agg.stats)
  }

  lemma {:induction false} FoldIdentity(es: seq<Entry>, i: nat)
    requires Coherent(es) && i < |es|
    ensures es[i].key in Fold(es)
    ensures Fold(es)[es[i].key] == es[i].agg.(stats := Fold(es)[es[i].key].stats)
    decreases |es|
  {
    var front, last := es[..|es| - 1], es[|es| - 1];
    FoldTotals(front);
    if i < |front| {
      assert front[i] == es[i];
      FoldIdentity(front, i);
    } else if last.key in Fold(front) {
      var j :| 0 <= j < |front| && front[j].key == last.key;
      assert front[j] == es[j];
      FoldIdentity(front, j);
    }
  }

  lemma {:induction false} TotalUnion(es: seq<Entry>, a: set<string>, b: set<string>)
    requires a !! b
    ensures Total(es, a + b) == Plus(Total(es, a), Total(es, b))
    decreases |es|
  {
    if es != [] {
      var front, last := es[..|es| - 1], es[|es| - 1];
      TotalUnion(front, a, b);
      var x, y, p, q := Total(front, a), Total(front, b), Part(last, a), Part(last, b);
      assert Part(last, a + b) == Plus(p, q);
      PlusAssociates(Plus(x, y), p, q);
      PlusAssociates(x, y, p);
      PlusCommutes(y, p);
      PlusAssociates(x, p, y);
      PlusAssociates(Plus(x, p), y, q);
    }
  }

  lemma {:induction false} TotalAppend(x: seq<Entry>, y: seq<Entry>, keys: set<string>)
    ensures Total(x + y, keys) == Plus(Total(x, keys), Total(y, keys))
    decreases |y|
  {
    if y == [] {
      assert x + y == x;
    } else {
      var front, last := y[..|y| - 1], y[|y| - 1];
      assert (x + y)[..|x + y| - 1] == x + front;
      TotalAppend(x, front, keys);
      PlusAssociates(Total(x, keys), Total(front, keys), Part(last, keys));
    }
  }

  lemma TotalOne(e: Entry, keys: set<string>)
    ensures Total([e], keys) == Part(e, keys)
  {
    assert Total([e][..0], keys) == None;
  }

  /** Moving one contribution to the end changes no total. */
  lemma TotalMove(y: seq<Entry>, i: nat, keys: set<string>)
    requires i < |y|
    ensures Total(y, keys) == Plus(Total(y[..i] + y[i + 1..], keys), Part(y[i], keys))
  {
    var a, b, e := y[..i], y[i + 1..], y[i];
    assert y == a + [e] + b;
    TotalAppend(a + [e], b, keys);
    TotalAppend(a, [e], keys);
    TotalOne(e, keys);
    TotalAppend(a, b, keys);
    PlusAssociates(Total(a, keys), Part(e, keys), Total(b, keys));
    PlusCommutes(Part(e, keys), Total(b, keys));
    PlusAssociates(Total(a, keys), Total(b, keys), Part(e, keys));
  }

  lemma {:induction false} TotalPermutes(x: seq<Entry>, y: seq<Entry>, keys: set<string>)
    requires multiset(x) == multiset(y)
    ensures Total(x, keys) == Total(y, keys)
    decreases |x|
  {
    assert |x| == |multiset(x)| == |multiset(y)| == |y|;
    if x != [] {
      var front, e := x[..|x| - 1], x[|x| - 1];
      assert x == front + [e];
      assert e in multiset(y);
      var i :| 0 <= i < |y| && y[i] == e;
      SplitMultiset(x, |x| - 1);
      assert Without(x, |x| - 1) == front;
      SplitMultiset(y, i);
      TotalPermutes(front, y[..i] + y[i + 1..], keys);
      TotalMove(y, i, keys);
    }
  }

  /** Folds of the same contributions in any order are equal. */
  lemma {:induction false} FoldPermutes(x: seq<Entry>, y: seq<Entry>)
    requires multiset(x) == multiset(y) && Coherent(x) && Coherent(y)
    ensures Fold(x) == Fold(y)
  {
    FoldTotals(x);
    FoldTotals(y);
    forall k | k in Fold(x) ensures k in Fold(y) && Fold(x)[k] == Fold(y)[k] {
      var i :| 0 <= i < |x| && x[i].key == k;
      assert x[i] in multiset(y);
      var j :| 0 <= j < |y| && y[j] == x[i];
      FoldIdentity(x, i);
      FoldIdentity(y, j);
      TotalPermutes(x, y, {k});
    }
    forall k | k in Fold(y) ensures k in Fold(x) {
      var j :| 0 <= j < |y| && y[j].key == k;
      assert y[j] in multiset(x);
    }
  }

  lemma {:induction false} TotalsAgree(x: seq<Entry>, a: set<string>, y: seq<Entry>, b: set<string>)
    requires |x| == |y|
    requires forall i :: 0 <= i < |x| ==> x[i].agg.stats == y[i].agg.stats && (x[i].key in a <==> y[i].key in b)
    ensures Total(x, a) == Total(y, b)
    decreases |x|
  {
    if x != [] { TotalsAgree(x[..|x| - 1], a, y[..|y| - 1], b); }
  }

  /* ---- the folds of the compactor as folds of contributions ---- */

  ghost function RawEntries(ms: seq<Metric>): (es: seq<Entry>)
    requires forall i :: 0 <= i < |ms| ==> IsRaw(ms[i])
    ensures |es| == |ms|
    ensures forall i :: 0 <= i < |ms| ==> es[i] == Entry(RawKey(ms[i]), RawAggregate(ms[i]))
  {
    seq(|ms|, i requires 0 <= i < |ms| => Entry(RawKey(ms[i]), RawAggregate(ms[i])))
  }

  lemma {:induction false} FoldRawIsFold(ms: seq<Metric>)
    requires forall i :: 0 <= i < |ms| ==> IsRaw(ms[i])
    ensures FoldRaw(ms) == Fold(RawEntries(ms))
    decreases |ms|
  {
    if ms != [] {
      var front := ms[..|ms| - 1];
      FoldRawIsFold(front);
      assert RawEntries(ms)[..|ms| - 1] == RawEntries(front);
    }
  }

  /** The reference: raw samples straight into hours. */
  ghost function RawHourKey(m: Metric): string {
    AggregateKey(m.name, m.labels, RoundTo1Hour(m.timestamp) / SECOND)
  }

  function RawHourAggregate(m: Metric): Aggregate {
    Aggregate(m.name, m.labels, RoundTo1Hour(m.timestamp), "1h", Single(m.value))
  }

  ghost function HourEntries(ms: seq<Metric>): (es: seq<Entry>)
    ensures |es| == |ms|
    ensures forall i :: 0 <= i < |ms| ==> es[i] == Entry(RawHourKey(ms[i]), RawHourAggregate(ms[i]))
  {
    seq(|ms|, i requires 0 <= i < |ms| => Entry(RawHourKey(ms[i]), RawHourAggregate(ms[i])))
  }

  /** Raw samples as ingest delivers them: names and labels without separators, no label the
      encoding would drop. */
  ghost predicate PlainSamples(ms: seq<Metric>) {
    forall i :: 0 <= i < |ms| ==> PlainSample(ms[i])
  }

  ghost predicate PlainSample(m: Metric) {
    && IsRaw(m) && ',' !in m.name && PlainLabels(m.labels)
    && (forall k :: k in m.labels ==> IsUserLabel(k))
  }

  lemma {:induction false} RawCoherent(ms: seq<Metric>)
    requires PlainSamples(ms)
    ensures Coherent(RawEntries(ms)) && Coherent(HourEntries(ms))
  {
    forall i, j | 0 <= i < |ms| && 0 <= j < |ms|
      ensures RawKey(ms[i]) == RawKey(ms[j]) ==> RawAggregate(ms[i]) == RawAggregate(ms[j]).(stats := RawAggregate(ms[i]).stats)
      ensures RawHourKey(ms[i]) == RawHourKey(ms[j]) ==>
              RawHourAggregate(ms[i]) == RawHourAggregate(ms[j]).(stats := RawHourAggregate(ms[i]).stats)
    {
      RawKeysSeparate(ms[i], ms[j]);
    }
  }

  lemma InSeconds(r: int)
    requires r % 300_000_000_000 == 0
    ensures r == r / SECOND * SECOND
  {
    assert r == r / 1_000_000_000 * 1_000_000_000;
  }

  lemma HoursInSeconds(r: int)
    requires r % 3_600_000_000_000 == 0
    ensures r == r / SECOND * SECOND
  {
    assert r == r / 1_000_000_000 * 1_000_000_000;
  }

  lemma {:induction false} WholeSeconds(s: int, t: int)
    ensures RoundTo5Minutes(s) / SECOND == RoundTo5Minutes(t) / SECOND ==> RoundTo5Minutes(s) == RoundTo5Minutes(t)
    ensures RoundTo1Hour(s) / SECOND == RoundTo1Hour(t) / SECOND ==> RoundTo1Hour(s) == RoundTo1Hour(t)
  {
    hide RoundTo5Minutes, RoundTo1Hour;
    InSeconds(RoundTo5Minutes(s));
    InSeconds(RoundTo5Minutes(t));
    HoursInSeconds(RoundTo1Hour(s));
    HoursInSeconds(RoundTo1Hour(t));
  }

  lemma FiveMinuteRest(t: int, k: int, y: int)
    requires 0 <= y < 300_000_000_000 && t == k * 300_000_000_000 + y
    ensures RoundTo5Minutes(t) == k * 300_000_000_000
  {
    assert t % 300_000_000_000 == y;
  }

  lemma HourRest(t: int, h: int, y: int)
    requires 0 <= y < 3_600_000_000_000 && t == h * 3_600_000_000_000 + y
    ensures RoundTo1Hour(t) == h * 3_600_000_000_000
  {
    assert t % 3_600_000_000_000 == y;
  }

  lemma HourOfFiveMinutes(t: int)
    ensures RoundTo1Hour(RoundTo5Minutes(t)) == RoundTo1Hour(t)
  {
    hide RoundTo5Minutes, RoundTo1Hour;
    var h, x := t / 3_600_000_000_000, t % 3_600_000_000_000;
    var q, y := x / 300_000_000_000, x % 300_000_000_000;
    FiveMinuteRest(t, 12 * h + q, y);
    HourRest(t, h, x);
    HourRest(RoundTo5Minutes(t), h, q * 300_000_000_000);
  }

  /** Bucket keys separate series and buckets. */
  lemma {:induction false} RawKeysSeparate(m: Metric, n: Metric)
    requires PlainSample(m) && PlainSample(n)
    ensures RawKey(m) == RawKey(n) <==>
            m.name == n.name && m.labels == n.labels && RoundTo5Minutes(m.timestamp) == RoundTo5Minutes(n.timestamp)
    ensures RawHourKey(m) == RawHourKey(n) <==>
            m.name == n.name && m.labels == n.labels && RoundTo1Hour(m.timestamp) == RoundTo1Hour(n.timestamp)
  {
    WholeSeconds(m.timestamp, n.timestamp);
    AggregateKeyInjective(m.name, m.labels, RoundTo5Minutes(m.timestamp) / SECOND,
                          n.name, n.labels, RoundTo5Minutes(n.timestamp) / SECOND);
    AggregateKeyInjective(m.name, m.labels, RoundTo1Hour(m.timestamp) / SECOND,
                          n.name, n.labels, RoundTo1Hour(n.timestamp) / SECOND);
  }

  /** The five-minute fold does not depend on the order of the samples. */
  lemma {:induction false} FiveMinuteFoldPermutes(x: seq<Metric>, y: seq<Metric>)
    requires PlainSamples(x) && PlainSamples(y) && multiset(x) == multiset(y)
    ensures FoldRaw(x) == FoldRaw(y)
  {
    FoldRawIsFold(x);
    FoldRawIsFold(y);
    RawCoherent(x);
    RawCoherent(y);
    EntriesPermute(x, y);
    FoldPermutes(RawEntries(x), RawEntries(y));
  }

  lemma RawEntriesSplit(y: seq<Metric>, i: nat)
    requires i < |y| && forall j :: 0 <= j < |y| ==> IsRaw(y[j])
    ensures forall j :: 0 <= j < |y| - 1 ==> IsRaw(Without(y, i)[j])
    ensures multiset(RawEntries(y)) == multiset(RawEntries(Without(y, i))) + multiset{Entry(RawKey(y[i]), RawAggregate(y[i]))}
  {
    hide RawKey, RawAggregate, IsRaw;
    assert RawEntries(Without(y, i)) == Without(RawEntries(y), i);
    SplitMultiset(RawEntries(y), i);
  }

  lemma {:induction false} EntriesPermute(x: seq<Metric>, y: seq<Metric>)
    requires multiset(x) == multiset(y)
    requires forall i :: 0 <= i < |x| ==> IsRaw(x[i])
    requires forall i :: 0 <= i < |y| ==> IsRaw(y[i])
    ensures multiset(RawEntries(x)) == multiset(RawEntries(y))
    decreases |x|
  {
    hide RawKey, RawAggregate, RawEntries, IsRaw, Without;
    assert |x| == |multiset(x)| == |multiset(y)| == |y|;
    if x == [] {
      assert RawEntries(x) == RawEntries(y);
    } else {
      assert x[0] in multiset(y);
      var i :| 0 <= i < |y| && y[i] == x[0];
      RawEntriesSplit(x, 0);
      RawEntriesSplit(y, i);
      SplitMultiset(x, 0);
      SplitMultiset(y, i);
      EntriesPermute(Without(x, 0), Without(y, i));
    }
  }

  /* ---- five-minute aggregates into hours ---- */

  /** The contribution of a five-minute bucket to its hour. */
  ghost function HourEntry(a: Aggregate): Entry { Entry(FiveKey(a), HourAggregate(a)) }

  ghost function BucketEntries(ks: seq<string>, b: Buckets): (es: seq<Entry>)
    requires forall i :: 0 <= i < |ks| ==> ks[i] in b
    ensures |es| == |ks|
    ensures forall i :: 0 <= i < |ks| ==> es[i] == HourEntry(b[ks[i]])
  {
    seq(|ks|, i requires 0 <= i < |ks| => HourEntry(b[ks[i]]))
  }

  /** The same with the statistics as the encoding rounds them. */
  ghost function StoredEntries(ks: seq<string>, b: Buckets): (es: seq<Entry>)
    requires forall i :: 0 <= i < |ks| ==> ks[i] in b
    ensures |es| == |ks|
    ensures forall i :: 0 <= i < |ks| ==> es[i] == HourEntry(b[ks[i]].(stats := RoundedStats(b[ks[i]].stats)))
  {
    seq(|ks|, i requires 0 <= i < |ks| => HourEntry(b[ks[i]].(stats := RoundedStats(b[ks[i]].stats))))
  }

  /** What is known of a bucket of the five-minute fold. */
  ghost predicate FoldedBucket(ms: seq<Metric>, k: string, a: Aggregate, i: nat) {
    && i < |ms| && RawKey(ms[i]) == k
    && a == RawAggregate(ms[i]).(stats := a.stats)
  }

  lemma {:induction false} BucketOrigin(ms: seq<Metric>, k: string) returns (i: nat)
    requires PlainSamples(ms) && k in FoldRaw(ms)
    ensures FoldedBucket(ms, k, FoldRaw(ms)[k], i)
  {
    var es := RawEntries(ms);
    FoldRawIsFold(ms);
    RawCoherent(ms);
    FoldTotals(es);
    i :| 0 <= i < |es| && es[i].key == k;
    FoldIdentity(es, i);
  }

  lemma {:induction false} TotalCount(es: seq<Entry>, keys: set<string>)
    requires forall i :: 0 <= i < |es| ==> es[i].agg.stats.count == 1
    ensures Total(es, keys).Some? ==> Total(es, keys).value.count <= |es|
    decreases |es|
  {
    if es != [] { TotalCount(es[..|es| - 1], keys); }
  }

  lemma {:induction false} TotalMicro(es: seq<Entry>, keys: set<string>)
    requires forall i :: 0 <= i < |es| ==> MicroStats(es[i].agg.stats)
    ensures Total(es, keys).Some? ==> MicroStats(Total(es, keys).value)
    decreases |es|
  {
    if es != [] {
      TotalMicro(es[..|es| - 1], keys);
      if Total(es[..|es| - 1], keys).Some? {
        MergeMicro(Total(es[..|es| - 1], keys).value, es[|es| - 1].agg.stats);
      }
    }
  }

  /** Plain samples carry user labels only. */
  lemma KeptAll(m: Metric)
    requires PlainSample(m)
    ensures Kept(m.labels) == m.labels
  {
  }

  /** A bucket's encoding decodes to the bucket, rounded. */
  lemma {:induction false} BucketDecodes(ms: seq<Metric>, k: string)
    requires PlainSamples(ms) && |ms| < TWO64 && k in FoldRaw(ms)
    ensures var a := FoldRaw(ms)[k]; AsFive(ToMetric(a)) == Some(a.(stats := RoundedStats(a.stats)))
  {
    hide FromMetric, ToMetric, RoundedStats, RawKey, Kept, Total, Fold;
    var i := BucketOrigin(ms, k);
    var a := FoldRaw(ms)[k];
    FoldRawIsFold(ms);
    FoldTotals(RawEntries(ms));
    TotalCount(RawEntries(ms), {k});
    DecodeEncode(a);
    KeptAll(ms[i]);
  }

  lemma {:induction false} FoldFiveOfListing(ms: seq<Metric>, ks: seq<string>, b: Buckets)
    requires PlainSamples(ms) && |ms| < TWO64 && b == FoldRaw(ms)
    requires forall i :: 0 <= i < |ks| ==> ks[i] in b
    ensures FoldFive(MetricsOf(ks, b)) == Fold(StoredEntries(ks, b))
    decreases |ks|
  {
    hide AsFive, FiveKey, HourAggregate, ToMetric, RoundedStats, Fold, FoldFive, FoldRaw, Absorb;
    NothingFolded();
    if ks != [] {
      var front, k := ks[..|ks| - 1], ks[|ks| - 1];
      FoldFiveOfListing(ms, front, b);
      BucketDecodes(ms, k);
      assert StoredEntries(ks, b)[..|ks| - 1] == StoredEntries(front, b);
      assert MetricsOf(ks, b)[..|ks| - 1] == MetricsOf(front, b);
      LastOfFold(StoredEntries(ks, b));
      LastOfFoldFive(MetricsOf(ks, b));
      StoredKey(b[k]);
    }
  }

  lemma NothingFolded()
    ensures FoldFive([]) == map[] == Fold([])
  {
  }

  lemma LastOfFold(es: seq<Entry>)
    requires es != []
    ensures Fold(es) == Absorb(Fold(es[..|es| - 1]), es[|es| - 1].key, es[|es| - 1].agg)
  {
  }

  lemma LastOfFoldFive(ms: seq<Metric>)
    requires ms != [] && AsFive(ms[|ms| - 1]).Some?
    ensures var a := AsFive(ms[|ms| - 1]).value;
            FoldFive(ms) == Absorb(FoldFive(ms[..|ms| - 1]), FiveKey(a), HourAggregate(a))
  {
  }

  lemma StoredKey(a: Aggregate)
    ensures HourEntry(a.(stats := RoundedStats(a.stats))).key == FiveKey(a)
  {
  }

  lemma {:induction false} FoldFiveSkips(x: seq<Metric>, y: seq<Metric>)
    requires forall i :: 0 <= i < |x| ==> AsFive(x[i]) == None
    ensures FoldFive(x + y) == FoldFive(y)
    decreases |x| + |y|
  {
    hide AsFive, Absorb, FiveKey, HourAggregate;
    if y != [] {
      assert (x + y)[..|x + y| - 1] == x + y[..|y| - 1];
      FoldFiveSkips(x, y[..|y| - 1]);
    } else if x != [] {
      assert x + y == x && x[..|x| - 1] + [] == x[..|x| - 1];
      FoldFiveSkips(x[..|x| - 1], []);
    } else {
      assert x + y == y;
    }
  }

  lemma RawIsNoFive(m: Metric)
    requires PlainSample(m)
    ensures AsFive(m) == None
  {
    MetadataIsInternal();
  }

  /** The buckets that fall into the hour of key `hour`. */
  ghost function BucketsOfHour(ks: seq<string>, b: Buckets, hour: string): set<string>
    requires forall i :: 0 <= i < |ks| ==> ks[i] in b
  {
    set i | 0 <= i < |ks| && FiveKey(b[ks[i]]) == hour :: ks[i]
  }

  /** Merging the five-minute buckets of an hour merges all their samples. */
  lemma {:induction false} HourOfBuckets(es: seq<Entry>, ks: seq<string>, b: Buckets, hour: string)
    requires forall i :: 0 <= i < |ks| ==> ks[i] in b && Total(es, {ks[i]}) == Some(b[ks[i]].stats)
    requires forall i, j :: 0 <= i < j < |ks| ==> ks[i] != ks[j]
    ensures Total(BucketEntries(ks, b), {hour}) == Total(es, BucketsOfHour(ks, b, hour))
    decreases |ks|
  {
    hide FiveKey, RoundTo1Hour;
    if ks == [] {
      assert BucketsOfHour(ks, b, hour) == {};
      TotalNone(es);
    } else {
      var front, k := ks[..|ks| - 1], ks[|ks| - 1];
      HourOfBuckets(es, front, b, hour);
      assert BucketEntries(ks, b)[..|ks| - 1] == BucketEntries(front, b);
      var before, after := BucketsOfHour(front, b, hour), BucketsOfHour(ks, b, hour);
      BucketsOfHourLast(ks, b, hour);
      if FiveKey(b[k]) == hour {
        TotalUnion(es, before, {k});
      }
    }
  }

  lemma {:induction false} BucketsOfHourLast(ks: seq<string>, b: Buckets, hour: string)
    requires ks != [] && forall i :: 0 <= i < |ks| ==> ks[i] in b
    requires forall i, j :: 0 <= i < j < |ks| ==> ks[i] != ks[j]
    ensures var front, k := ks[..|ks| - 1], ks[|ks| - 1];
            var before := BucketsOfHour(front, b, hour);
            && k !in before
            && BucketsOfHour(ks, b, hour) == if FiveKey(b[k]) == hour then before + {k} else before
  {
    hide FiveKey;
    var front, k := ks[..|ks| - 1], ks[|ks| - 1];
    var before, after := BucketsOfHour(front, b, hour), BucketsOfHour(ks, b, hour);
    forall x | x in after ensures x in before || (x == k && FiveKey(b[k]) == hour) {
      var i :| 0 <= i < |ks| && FiveKey(b[ks[i]]) == hour && ks[i] == x;
      if i < |front| { assert front[i] == x; }
    }
    forall x | x in before ensures x in after {
      var i :| 0 <= i < |front| && FiveKey(b[front[i]]) == hour && front[i] == x;
      assert ks[i] == x;
    }
    if FiveKey(b[k]) == hour { assert ks[|ks| - 1] == k; }
  }

  lemma {:induction false} TotalNone(es: seq<Entry>)
    ensures Total(es, {}) == None
    decreases |es|
  {
    if es != [] { TotalNone(es[..|es| - 1]); }
  }

  /** A sample's five-minute bucket lies in the sample's hour. */
  lemma {:induction false} BucketHour(ms: seq<Metric>, j: nat, ks: seq<string>, b: Buckets, hour: string)
    requires PlainSamples(ms) && b == FoldRaw(ms) && Enumerates(ks, b) && j < |ms|
    requires forall i :: 0 <= i < |ks| ==> ks[i] in b
    ensures RawKey(ms[j]) in BucketsOfHour(ks, b, hour) <==> RawHourKey(ms[j]) == hour
  {
    var k := RawKey(ms[j]);
    var es := RawEntries(ms);
    FoldRawIsFold(ms);
    RawCoherent(ms);
    FoldIdentity(es, j);
    HourOfFiveMinutes(ms[j].timestamp);
    assert FiveKey(b[k]) == RawHourKey(ms[j]);
    assert k in Elements(ks);
    var i :| 0 <= i < |ks| && ks[i] == k;
  }

  /** Through five-minute buckets or directly: the same total per hour. */
  lemma {:induction false} HourTotals(ms: seq<Metric>, ks: seq<string>, hour: string)
    requires PlainSamples(ms) && Enumerates(ks, FoldRaw(ms))
    requires forall i :: 0 <= i < |ks| ==> ks[i] in FoldRaw(ms)
    ensures Total(BucketEntries(ks, FoldRaw(ms)), {hour}) == Total(HourEntries(ms), {hour})
  {
    hide FiveKey, HourAggregate, FoldRaw, Fold, Total, BucketsOfHour, RawHourKey, RawKey, RoundTo5Minutes, RoundTo1Hour;
    var b, es := FoldRaw(ms), RawEntries(ms);
    FoldRawIsFold(ms);
    FoldTotals(es);
    HourOfBuckets(es, ks, b, hour);
    forall j | 0 <= j < |ms|
      ensures es[j].key in BucketsOfHour(ks, b, hour) <==> HourEntries(ms)[j].key in {hour}
    {
      BucketHour(ms, j, ks, b, hour);
    }
    TotalsAgree(es, BucketsOfHour(ks, b, hour), HourEntries(ms), {hour});
  }

  /** The reference: the raw samples folded straight into hours. */
  ghost function FoldHours(ms: seq<Metric>): Buckets { Fold(HourEntries(ms)) }

  /** The origin of a five-minute bucket fixes its hour. */
  lemma {:induction false} BucketInHour(ms: seq<Metric>, k: string) returns (i: nat)
    requires PlainSamples(ms) && k in FoldRaw(ms)
    ensures i < |ms|
    ensures var a := FoldRaw(ms)[k];
            && FiveKey(a) == RawHourKey(ms[i])
            && HourAggregate(a) == RawHourAggregate(ms[i]).(stats := a.stats)
  {
    i := BucketOrigin(ms, k);
    HourOfFiveMinutes(ms[i].timestamp);
  }

  lemma {:induction false} BucketsCoherent(ms: seq<Metric>, ks: seq<string>)
    requires PlainSamples(ms) && forall i :: 0 <= i < |ks| ==> ks[i] in FoldRaw(ms)
    ensures Coherent(BucketEntries(ks, FoldRaw(ms)))
  {
    var b := FoldRaw(ms);
    var es := BucketEntries(ks, b);
    forall i, j | 0 <= i < |ks| && 0 <= j < |ks| && es[i].key == es[j].key
      ensures es[i].agg == es[j].agg.(stats := es[i].agg.stats)
    {
      var x := BucketInHour(ms, ks[i]);
      var y := BucketInHour(ms, ks[j]);
      RawKeysSeparate(ms[x], ms[y]);
    }
  }

  lemma {:induction false} SameHourIdentity(ms: seq<Metric>, ks: seq<string>, k: string)
    requires PlainSamples(ms) && forall i :: 0 <= i < |ks| ==> ks[i] in FoldRaw(ms)
    requires k in Fold(BucketEntries(ks, FoldRaw(ms))) && k in FoldHours(ms)
    ensures var a, c := Fold(BucketEntries(ks, FoldRaw(ms)))[k], FoldHours(ms)[k]; a == c.(stats := a.stats)
  {
    hide RawHourKey, RawHourAggregate, FiveKey, HourAggregate, FoldRaw, Coherent;
    var x, y := BucketEntries(ks, FoldRaw(ms)), HourEntries(ms);
    FoldTotals(x);
    BucketsCoherent(ms, ks);
    RawCoherent(ms);
    var i :| 0 <= i < |x| && x[i].key == k;
    FoldIdentity(x, i);
    var j := BucketInHour(ms, ks[i]);
    assert y[j].key == k;
    FoldIdentity(y, j);
  }

  /** Folding the five-minute buckets, unrounded, gives the hourly aggregates of the samples. */
  lemma {:induction false} BucketsFoldToHours(ms: seq<Metric>, ks: seq<string>)
    requires PlainSamples(ms) && Enumerates(ks, FoldRaw(ms))
    requires forall i :: 0 <= i < |ks| ==> ks[i] in FoldRaw(ms)
    ensures Fold(BucketEntries(ks, FoldRaw(ms))) == FoldHours(ms)
  {
    hide RawHourKey, RawHourAggregate, FiveKey, HourAggregate, FoldRaw, Coherent;
    var x, y := BucketEntries(ks, FoldRaw(ms)), HourEntries(ms);
    FoldTotals(x);
    FoldTotals(y);
    forall k ensures k in Fold(x) <==> k in Fold(y) { HourTotals(ms, ks, k); }
    forall k | k in Fold(x) ensures Fold(x)[k] == Fold(y)[k] {
      HourTotals(ms, ks, k);
      SameHourIdentity(ms, ks, k);
    }
  }

  lemma SortedEnumerates(b: Buckets)
    ensures Enumerates(Sorted(b.Keys), b)
  {
    var ks := Sorted(b.Keys);
    forall i, j | 0 <= i < j < |ks| ensures ks[i] != ks[j] { BelowIrreflexive(ks[i], ks[j]); }
  }

  lemma PlainPermutes(x: seq<Metric>, y: seq<Metric>)
    requires PlainSamples(x) && multiset(x) == multiset(y)
    ensures PlainSamples(y)
  {
    forall i | 0 <= i < |y| ensures PlainSample(y[i]) { assert y[i] in multiset(x); }
  }

  /** The hourly aggregates do not depend on the order of the samples either. */
  lemma {:induction false} HourlyFoldPermutes(x: seq<Metric>, y: seq<Metric>)
    requires PlainSamples(x) && multiset(x) == multiset(y)
    ensures FoldHours(x) == FoldHours(y)
  {
    hide FoldHours, PlainSample, Enumerates;
    PlainPermutes(x, y);
    FiveMinuteFoldPermutes(x, y);
    var ks := Sorted(FoldRaw(x).Keys);
    SortedEnumerates(FoldRaw(x));
    EnumeratedKeys(ks, FoldRaw(x));
    BucketsFoldToHours(x, ks);
    BucketsFoldToHours(y, ks);
  }

  /* ---- rounding ---- */

  /** How many contributions carry a key in `keys`. */
  function Hits(es: seq<Entry>, keys: set<string>): nat {
    if es == [] then 0 else Hits(es[..|es| - 1], keys) + if es[|es| - 1].key in keys then 1 else 0
  }

  lemma {:induction false} TotalNear(x: seq<Entry>, y: seq<Entry>, keys: set<string>)
    requires |x| == |y|
    requires forall i :: 0 <= i < |x| ==> x[i].key == y[i].key && Near(x[i].agg.stats, y[i].agg.stats, 1)
    ensures Total(x, keys).None? <==> Total(y, keys).None?
    ensures Total(x, keys).Some? ==> Near(Total(x, keys).value, Total(y, keys).value, Hits(x, keys))
    ensures Total(x, keys).None? ==> Hits(x, keys) == 0
    decreases |x|
  {
    hide Near;
    if x != [] {
      var n := |x| - 1;
      TotalNear(x[..n], y[..n], keys);
      if x[n].key in keys && Total(x[..n], keys).Some? {
        MergeNear(Total(x[..n], keys).value, Total(y[..n], keys).value, Hits(x[..n], keys), x[n].agg.stats, y[n].agg.stats, 1);
      }
    }
  }

  lemma StoredNear(ks: seq<string>, b: Buckets)
    requires forall i :: 0 <= i < |ks| ==> ks[i] in b
    ensures var x, y := BucketEntries(ks, b), StoredEntries(ks, b);
            forall i :: 0 <= i < |ks| ==> x[i].key == y[i].key && Near(x[i].agg.stats, y[i].agg.stats, 1)
  {
    forall i | 0 <= i < |ks|
      ensures BucketEntries(ks, b)[i].key == StoredEntries(ks, b)[i].key
      ensures Near(BucketEntries(ks, b)[i].agg.stats, StoredEntries(ks, b)[i].agg.stats, 1)
    {
      RoundedNear(b[ks[i]].stats);
    }
  }

  lemma {:induction false} MicroRounds(s: Stats)
    requires MicroStats(s)
    ensures RoundedStats(s) == s
  {
    hide IsMicro, Rounded;
    RoundedExact(s.sum);
    RoundedExact(s.min);
    RoundedExact(s.max);
  }

  lemma {:induction false} BucketExact(ms: seq<Metric>, k: string)
    requires PlainSamples(ms) && forall i :: 0 <= i < |ms| ==> IsMicro(ms[i].value)
    requires k in FoldRaw(ms)
    ensures RoundedStats(FoldRaw(ms)[k].stats) == FoldRaw(ms)[k].stats
  {
    hide Total, RoundedStats, IsMicro, RawKey, Fold, FoldRaw;
    var es := RawEntries(ms);
    FoldRawIsFold(ms);
    FoldTotals(es);
    assert forall i :: 0 <= i < |es| ==> MicroStats(es[i].agg.stats);
    hide MicroStats;
    TotalMicro(es, {k});
    MicroRounds(FoldRaw(ms)[k].stats);
  }

  lemma {:induction false} StoredExact(ms: seq<Metric>, ks: seq<string>)
    requires PlainSamples(ms) && forall i :: 0 <= i < |ms| ==> IsMicro(ms[i].value)
    requires forall i :: 0 <= i < |ks| ==> ks[i] in FoldRaw(ms)
    ensures StoredEntries(ks, FoldRaw(ms)) == BucketEntries(ks, FoldRaw(ms))
  {
    hide IsMicro, PlainSamples, RoundedStats, FoldRaw;
    forall i | 0 <= i < |ks| ensures RoundedStats(FoldRaw(ms)[ks[i]].stats) == FoldRaw(ms)[ks[i]].stats {
      BucketExact(ms, ks[i]);
    }
  }

  /* ---- on a store ---- */

  lemma AlignedStart(start: int, t: int)
    requires start % FIVE_MINUTES == 0 && start <= t
    ensures start <= RoundTo5Minutes(t)
  {
    assert start % 300_000_000_000 == 0;
  }

  lemma {:induction false} SelectAll(ms: seq<Metric>, req: QueryRequest)
    requires forall i :: 0 <= i < |ms| ==> Matches(ms[i], req)
    ensures Select(ms, req) == ms
    decreases |ms|
  {
    if ms != [] {
      SelectAll(ms[..|ms| - 1], req);
      assert ms == ms[..|ms| - 1] + [ms[|ms| - 1]];
    }
  }

  lemma {:induction false} SelectedFrom(ms: seq<Metric>, req: QueryRequest)
    ensures |Select(ms, req)| <= |ms|
    ensures forall i :: 0 <= i < |Select(ms, req)| ==> Select(ms, req)[i] in ms && Matches(Select(ms, req)[i], req)
    decreases |ms|
  {
    if ms != [] {
      SelectedFrom(ms[..|ms| - 1], req);
      forall m | m in ms[..|ms| - 1] ensures m in ms {}
    }
  }

  /** The listed aggregates of a window with an aligned start lie in the window. */
  lemma {:induction false} ListedInWindow(ms: seq<Metric>, start: int, end: int, ks: seq<string>)
    requires PlainSamples(ms) && start % FIVE_MINUTES == 0
    requires forall i :: 0 <= i < |ms| ==> start <= ms[i].timestamp <= end
    requires forall i :: 0 <= i < |ks| ==> ks[i] in FoldRaw(ms)
    ensures var out := MetricsOf(ks, FoldRaw(ms)); Select(out, Window(start, end)) == out
  {
    var b := FoldRaw(ms);
    var out := MetricsOf(ks, b);
    forall i | 0 <= i < |out| ensures Matches(out[i], Window(start, end)) {
      MetricsOfAt(ks, b, i);
      var j := BucketOrigin(ms, ks[i]);
      AlignedStart(start, ms[j].timestamp);
    }
    SelectAll(out, Window(start, end));
  }

  /** What the hourly fold of a window sees after the five-minute aggregates were written. */
  lemma {:induction false} SecondFold(raw: seq<Metric>, start: int, end: int, ks: seq<string>)
    requires PlainSamples(raw) && |raw| < TWO64 && start % FIVE_MINUTES == 0
    requires var ms := Select(raw, Window(start, end)); Enumerates(ks, FoldRaw(ms)) && forall i :: 0 <= i < |ks| ==> ks[i] in FoldRaw(ms)
    ensures var ms := Select(raw, Window(start, end));
            PlainSamples(ms) &&
            FoldFive(Select(raw + MetricsOf(ks, FoldRaw(ms)), Window(start, end))) == Fold(StoredEntries(ks, FoldRaw(ms)))
  {
    var w := Window(start, end);
    var ms := Select(raw, w);
    SelectedFrom(raw, w);
    assert PlainSamples(ms) by {
      forall i | 0 <= i < |ms| ensures PlainSample(ms[i]) { assert ms[i] in raw; }
    }
    var out := MetricsOf(ks, FoldRaw(ms));
    SelectAppend(raw, out, w);
    ListedInWindow(ms, start, end, ks);
    forall i | 0 <= i < |ms| ensures AsFive(ms[i]) == None { RawIsNoFive(ms[i]); }
    FoldFiveSkips(ms, out);
    FoldFiveOfListing(ms, ks, FoldRaw(ms));
  }

  /** From a store of raw samples whose values are whole millionths, compacting a window with
      an aligned start to five minutes and then to hours gives, for every series and hour, the
      aggregate of the raw samples themselves. */
  lemma {:induction false} HourlyIsDirect(raw: seq<Metric>, start: int, end: int, out: seq<Metric>)
    requires PlainSamples(raw) && |raw| < TWO64 && start % FIVE_MINUTES == 0
    requires forall i :: 0 <= i < |raw| ==> IsMicro(raw[i].value)
    requires Lists(out, FoldRaw(Select(raw, Window(start, end))))
    ensures FoldFive(Select(raw + out, Window(start, end))) == FoldHours(Select(raw, Window(start, end)))
  {
    var ms := Select(raw, Window(start, end));
    var ks :| Listing(ks, out, FoldRaw(ms));
    EnumeratedKeys(ks, FoldRaw(ms));
    SelectedFrom(raw, Window(start, end));
    SecondFold(raw, start, end, ks);
    StoredExact(ms, ks);
    BucketsFoldToHours(ms, ks);
  }

  /** For arbitrary values: the same hours, counts exact, the sum within half a millionth per
      merged five-minute aggregate, the bounds within half a millionth. */
  lemma {:induction false} HourlyIsNear(raw: seq<Metric>, start: int, end: int, out: seq<Metric>, ks: seq<string>, hour: string)
    requires PlainSamples(raw) && |raw| < TWO64 && start % FIVE_MINUTES == 0
    requires Listing(ks, out, FoldRaw(Select(raw, Window(start, end))))
    requires forall i :: 0 <= i < |ks| ==> ks[i] in FoldRaw(Select(raw, Window(start, end)))
    ensures var direct := FoldHours(Select(raw, Window(start, end)));
            var stored := FoldFive(Select(raw + out, Window(start, end)));
            && (hour in stored <==> hour in direct)
            && (hour in direct ==>
                Near(direct[hour].stats, stored[hour].stats,
                     Hits(BucketEntries(ks, FoldRaw(Select(raw, Window(start, end)))), {hour})))
  {
    var ms := Select(raw, Window(start, end));
    var b := FoldRaw(ms);
    SecondFold(raw, start, end, ks);
    BucketsFoldToHours(ms, ks);
    StoredNear(ks, b);
    var x, y := BucketEntries(ks, b), StoredEntries(ks, b);
    TotalNear(x, y, {hour});
    FoldTotals(x);
    FoldTotals(y);
  }

  /* ---- nothing is lost ---- */

  function CountSum(ks: seq<string>, b: Buckets): nat
    requires forall i :: 0 <= i < |ks| ==> ks[i] in b
  {
    if ks == [] then 0 else CountSum(ks[..|ks| - 1], b) + b[ks[|ks| - 1]].stats.count
  }

  function ValueSum(ks: seq<string>, b: Buckets): real
    requires forall i :: 0 <= i < |ks| ==> ks[i] in b
  {
    if ks == [] then 0.0 else ValueSum(ks[..|ks| - 1], b) + b[ks[|ks| - 1]].stats.sum
  }

  function SampleSum(ms: seq<Metric>): real {
    if ms == [] then 0.0 else SampleSum(ms[..|ms| - 1]) + ms[|ms| - 1].value
  }

  function CountOf(s: Option<Stats>): nat { if s.None? then 0 else s.value.count }
  function SumOf(s: Option<Stats>): real { if s.None? then 0.0 else s.value.sum }

  lemma {:induction false} BucketSums(es: seq<Entry>, ks: seq<string>, b: Buckets)
    requires forall i :: 0 <= i < |ks| ==> ks[i] in b && Total(es, {ks[i]}) == Some(b[ks[i]].stats)
    requires forall i, j :: 0 <= i < j < |ks| ==> ks[i] != ks[j]
    ensures CountSum(ks, b) == CountOf(Total(es, Elements(ks)))
    ensures ValueSum(ks, b) == SumOf(Total(es, Elements(ks)))
    decreases |ks|
  {
    if ks == [] {
      NoElements();
      TotalNone(es);
    } else {
      var front, k := ks[..|ks| - 1], ks[|ks| - 1];
      BucketSums(es, front, b);
      assert front + [k] == ks;
      AppendElement(front, k);
      assert k !in Elements(front);
      TotalUnion(es, Elements(front), {k});
    }
  }

  lemma {:induction false} SampleTotals(ms: seq<Metric>, keys: set<string>)
    requires forall i :: 0 <= i < |ms| ==> IsRaw(ms[i]) && RawKey(ms[i]) in keys
    ensures CountOf(Total(RawEntries(ms), keys)) == |ms|
    ensures SumOf(Total(RawEntries(ms), keys)) == SampleSum(ms)
    decreases |ms|
  {
    hide RawKey;
    if ms != [] {
      SampleTotals(ms[..|ms| - 1], keys);
      assert RawEntries(ms)[..|ms| - 1] == RawEntries(ms[..|ms| - 1]);
    }
  }

  /** Over all buckets of the five-minute fold, the counts add up to the number of samples
      and the sums to the samples' sum. */
  lemma {:induction false} FoldConserves(ms: seq<Metric>, ks: seq<string>)
    requires forall i :: 0 <= i < |ms| ==> IsRaw(ms[i])
    requires Enumerates(ks, FoldRaw(ms)) && forall i :: 0 <= i < |ks| ==> ks[i] in FoldRaw(ms)
    ensures CountSum(ks, FoldRaw(ms)) == |ms| && ValueSum(ks, FoldRaw(ms)) == SampleSum(ms)
  {
    var b, es := FoldRaw(ms), RawEntries(ms);
    FoldRawIsFold(ms);
    FoldTotals(es);
    BucketSums(es, ks, b);
    forall i | 0 <= i < |ms| ensures RawKey(ms[i]) in Elements(ks) {
      assert es[i].key in Keys(es);
    }
    SampleTotals(ms, Elements(ks));
  }

  lemma {:induction false} HourSampleTotals(ms: seq<Metric>, keys: set<string>)
    requires forall i :: 0 <= i < |ms| ==> RawHourKey(ms[i]) in keys
    ensures CountOf(Total(HourEntries(ms), keys)) == |ms|
    ensures SumOf(Total(HourEntries(ms), keys)) == SampleSum(ms)
    decreases |ms|
  {
    hide RawHourKey;
    if ms != [] {
      HourSampleTotals(ms[..|ms| - 1], keys);
      assert HourEntries(ms)[..|ms| - 1] == HourEntries(ms[..|ms| - 1]);
    }
  }

  /** The same over all hours. */
  lemma {:induction false} HoursConserve(ms: seq<Metric>, ks: seq<string>)
    requires Enumerates(ks, FoldHours(ms)) && forall i :: 0 <= i < |ks| ==> ks[i] in FoldHours(ms)
    ensures CountSum(ks, FoldHours(ms)) == |ms| && ValueSum(ks, FoldHours(ms)) == SampleSum(ms)
  {
    var es := HourEntries(ms);
    FoldTotals(es);
    BucketSums(es, ks, FoldHours(ms));
    forall i | 0 <= i < |ms| ensures RawHourKey(ms[i]) in Elements(ks) { assert es[i].key in Keys(es); }
    HourSampleTotals(ms, Elements(ks));
  }

  /** After both compactions of a window the hourly counts add up to the number of raw samples
      in the window and the hourly sums to their sum. */
  lemma {:induction false} BothFoldsConserve(raw: seq<Metric>, start: int, end: int, out: seq<Metric>, ks: seq<string>)
    requires PlainSamples(raw) && |raw| < TWO64 && start % FIVE_MINUTES == 0
    requires forall i :: 0 <= i < |raw| ==> IsMicro(raw[i].value)
    requires Lists(out, FoldRaw(Select(raw, Window(start, end))))
    requires Enumerates(ks, FoldFive(Select(raw + out, Window(start, end))))
    ensures forall i :: 0 <= i < |ks| ==> ks[i] in FoldFive(Select(raw + out, Window(start, end)))
    ensures var hours, ms := FoldFive(Select(raw + out, Window(start, end))), Select(raw, Window(start, end));
            CountSum(ks, hours) == |ms| && ValueSum(ks, hours) == SampleSum(ms)
  {
    hide FoldFive, FoldHours, FoldRaw, Select, PlainSamples, Lists, Enumerates;
    EnumeratedKeys(ks, FoldFive(Select(raw + out, Window(start, end))));
    HourlyIsDirect(raw, start, end, out);
    HoursConserve(Select(raw, Window(start, end)), ks);
  }
}
