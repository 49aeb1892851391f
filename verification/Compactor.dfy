/**
 Downsampling (pkg/compaction/compactor.go): the two folds, as functions of what a query
 returns and as the loops the source runs.
 */
module Compactor {
  import opened Instants
  import opened Options
  import opened Strings
  import opened SeriesKeys
  import opened Metrics
  import opened MemoryStorage
  import opened Aggregates

  const FIVE_MINUTES: int := 300 * SECOND

  const COMPACT_5M_DELAY := 6 * HOUR
  const COMPACT_5M_LOOKBACK := 12 * HOUR
  const COMPACT_1H_DELAY := 2 * DAY
  const COMPACT_1H_LOOKBACK := 7 * DAY
  const RAW_RETENTION := 6 * HOUR
  const FIVE_RETENTION := 7 * DAY

  /** Down to the last five-minute boundary. */
  function RoundTo5Minutes(t: int): (r: int)
    ensures r <= t < r + FIVE_MINUTES && r % FIVE_MINUTES == 0
  {
    t - t % 300_000_000_000
  }

  /** Down to the last full hour. */
  function RoundTo1Hour(t: int): (r: int)
    ensures r <= t < r + HOUR && r % HOUR == 0
  {
    t - t % 3_600_000_000_000
  }

  type Buckets = map<string, Aggregate>

  /** Merging one more contribution into the bucket of its key. */
  function Absorb(b: Buckets, key: string, a: Aggregate): Buckets {
    if key in b then b[key := b[key].(stats := Merge(b[key].stats, a.stats))] else b[key := a]
  }

  /* ---- raw samples into five-minute buckets ---- */

  ghost function RawKey(m: Metric): string {
    AggregateKey(m.name, m.labels, RoundTo5Minutes(m.timestamp) / SECOND)
  }

  function RawAggregate(m: Metric): Aggregate {
    Aggregate(m.name, m.labels, RoundTo5Minutes(m.timestamp), "5m", Single(m.value))
  }

  ghost function FoldRaw(ms: seq<Metric>): Buckets {
    if ms == [] then map[]
    else
      var b, m := FoldRaw(ms[..|ms| - 1]), ms[|ms| - 1];
      if IsRaw(m) then Absorb(b, RawKey(m), RawAggregate(m)) else b
  }

  /* ---- five-minute aggregates into hourly buckets ---- */

  ghost function FiveKey(a: Aggregate): string {
    AggregateKey(a.name, a.labels, RoundTo1Hour(a.timestamp) / SECOND)
  }

  function HourAggregate(a: Aggregate): Aggregate {
    a.(timestamp := RoundTo1Hour(a.timestamp), resolution := "1h")
  }

  /** The five-minute aggregate a metric encodes, if it does. */
  function AsFive(m: Metric): Option<Aggregate> {
    var a := FromMetric(m);
    if a.Some? && a.value.resolution == "5m" then a else None
  }

  ghost function FoldFive(ms: seq<Metric>): Buckets {
    if ms == [] then map[]
    else
      var b, a := FoldFive(ms[..|ms| - 1]), AsFive(ms[|ms| - 1]);
      if a.Some? then Absorb(b, FiveKey(a.value), HourAggregate(a.value)) else b
  }

  /* ---- what is written ---- */

  ghost predicate Enumerates(ks: seq<string>, b: Buckets) {
    && Elements(ks) == b.Keys
    && (forall i, j :: 0 <= i < j < |ks| ==> ks[i] != ks[j])
  }

  lemma EnumeratedKeys(ks: seq<string>, b: Buckets)
    requires Enumerates(ks, b)
    ensures forall i :: 0 <= i < |ks| ==> ks[i] in b
  {
    forall i | 0 <= i < |ks| ensures ks[i] in b { assert ks[i] in Elements(ks); }
  }

  function MetricsOf(ks: seq<string>, b: Buckets): (r: seq<Metric>)
    requires forall i :: 0 <= i < |ks| ==> ks[i] in b
    ensures |r| == |ks|
  {
    if ks == [] then [] else MetricsOf(ks[..|ks| - 1], b) + [ToMetric(b[ks[|ks| - 1]])]
  }

  lemma {:induction false} MetricsOfAt(ks: seq<string>, b: Buckets, i: nat)
    requires forall i :: 0 <= i < |ks| ==> ks[i] in b
    requires i < |ks|
    ensures MetricsOf(ks, b)[i] == ToMetric(b[ks[i]])
  {
    if i < |ks| - 1 { MetricsOfAt(ks[..|ks| - 1], b, i); }
  }

  /** `out` holds the encoding of every bucket once, in the order a map range visits them. */
  ghost predicate Lists(out: seq<Metric>, b: Buckets) {
    exists ks :: Listing(ks, out, b)
  }

  ghost predicate Listing(ks: seq<string>, out: seq<Metric>, b: Buckets) {
    Enumerates(ks, b) && (EnumeratedKeys(ks, b); out == MetricsOf(ks, b))
  }

  /** The range loop over the buckets. */
  method ListBuckets(b: Buckets) returns (out: seq<Metric>)
    ensures Lists(out, b) && (|out| == 0 <==> b == map[])
  {
    hide ToMetric, Elements, Listed, Lists;
    out := [];
    var keys: seq<string> := [];
    var left := b.Keys;
    ListedFirst(b);
    while left != {}
      invariant Listed(keys, out, left, b)
      decreases |left|
    {
      var k :| k in left;
      ListedKey(keys, out, left, b, k);
      var m := EncodeAggregate(b[k]);
      keys, out, left := keys + [k], out + [m], left - {k};
    }
    ListedLast(keys, out, b);
  }

  /** The keys gone through, the metrics made of them, and the keys left. */
  ghost predicate Listed(keys: seq<string>, out: seq<Metric>, left: set<string>, b: Buckets) {
    && Elements(keys) + left == b.Keys && Elements(keys) !! left
    && (forall i, j :: 0 <= i < j < |keys| ==> keys[i] != keys[j])
    && (forall i :: 0 <= i < |keys| ==> keys[i] in b)
    && out == MetricsOf(keys, b)
  }

  lemma ListedFirst(b: Buckets)
    ensures Listed([], [], b.Keys, b)
  {
  }

  lemma {:induction false} ListedKey(keys: seq<string>, out: seq<Metric>, left: set<string>, b: Buckets, k: string)
    requires Listed(keys, out, left, b) && k in left
    ensures k in b && Listed(keys + [k], out + [ToMetric(b[k])], left - {k}, b)
  {
    hide ToMetric, Elements;
    NewElement(keys, k);
    AppendElement(keys, k);
    assert (keys + [k])[..|keys|] == keys;
  }

  lemma ListedLast(keys: seq<string>, out: seq<Metric>, b: Buckets)
    requires Listed(keys, out, {}, b)
    ensures Lists(out, b) && (|out| == 0 <==> b == map[])
  {
    hide ToMetric;
    assert Listing(keys, out, b);
    assert |keys| > 0 ==> keys[0] in b;
    assert keys == [] ==> b.Keys == {};
  }

  method AbsorbInto(b: Buckets, key: string, a: Aggregate) returns (r: Buckets)
    ensures r == Absorb(b, key, a)
  {
    r := b;
    if key in b {
      var s := b[key].stats;
      s := s.(sum := s.sum + a.stats.sum);
      s := s.(count := s.count + a.stats.count);
      if a.stats.min < s.min { s := s.(min := a.stats.min); }
      if a.stats.max > s.max { s := s.(max := a.stats.max); }
      r := b[key := b[key].(stats := s)];
    } else {
      r := b[key := a];
    }
  }

  /** The fold loop of `Compact5m`. */
  method BucketRaw(raw: seq<Metric>) returns (buckets: Buckets)
    ensures buckets == FoldRaw(raw)
  {
    hide AggregateKey, Absorb;
    buckets := map[];
    for i := 0 to |raw|
      invariant buckets == FoldRaw(raw[..i])
    {
      var m := raw[i];
      assert raw[..i + 1][..i] == raw[..i];
      if Lookup(m.labels, RESOLUTION) != "" { continue; }
      var bucketTime := RoundTo5Minutes(m.timestamp);
      var key := AggregateKeyString(m.name, m.labels, bucketTime / SECOND);
      buckets := AbsorbInto(buckets, key, Aggregate(m.name, m.labels, bucketTime, "5m", Single(m.value)));
    }
    assert raw[..|raw|] == raw;
  }

  /** The fold loop of `Compact1h`. */
  method BucketFive(metrics: seq<Metric>) returns (buckets: Buckets)
    ensures buckets == FoldFive(metrics)
  {
    hide AggregateKey, Absorb, FromMetric;
    buckets := map[];
    for i := 0 to |metrics|
      invariant buckets == FoldFive(metrics[..i])
    {
      var m := metrics[i];
      assert metrics[..i + 1][..i] == metrics[..i];
      var source := DecodeAggregate(m);
      if source == None || source.value.resolution != "5m" { continue; }
      var a := source.value;
      DecodedIdentity(m);
      var bucketTime := RoundTo1Hour(m.timestamp);
      var key := AggregateKeyString(m.name, a.labels, bucketTime / SECOND);
      buckets := AbsorbInto(buckets, key, Aggregate(m.name, a.labels, bucketTime, "1h", a.stats));
    }
    assert metrics[..|metrics|] == metrics;
  }

  lemma DecodedIdentity(m: Metric)
    ensures var a := FromMetric(m); a.Some? ==> a.value.name == m.name && a.value.timestamp == m.timestamp
  {
  }

  class Compactor {
    const storage: Storage

    constructor (store: Storage)
      ensures storage == store
    {
      storage := store;
    }

    /** `Compact5m`: an error leaves the store alone; otherwise the five-minute aggregates
        of the raw samples in the window are appended. */
    method Compact5m(start: int, end: int) returns (ok: bool)
      modifies storage
      ensures !ok ==> storage.metrics == old(storage.metrics)
      ensures ok ==> start < end
      ensures ok ==> exists out :: Lists(out, FoldRaw(Select(old(storage.metrics), Window(start, end)))) &&
                                   storage.metrics == old(storage.metrics) + out
    {
      hide Lists, FoldRaw, Select;
      if end <= start { return false; }
      var raw := storage.Query(Window(start, end));
      var buckets := BucketRaw(raw);
      var out := ListBuckets(buckets);
      assert old(storage.metrics) + [] == old(storage.metrics);
      ok := true;
      if |out| > 0 {
        ok := storage.Write(out);
      }
      assert ok ==> storage.metrics == old(storage.metrics) + out;
    }

    /** `Compact1h`: the same from five-minute aggregates to hourly ones. */
    method Compact1h(start: int, end: int) returns (ok: bool)
      modifies storage
      ensures !ok ==> storage.metrics == old(storage.metrics)
      ensures ok ==> start < end
      ensures ok ==> exists out :: Lists(out, FoldFive(Select(old(storage.metrics), Window(start, end)))) &&
                                   storage.metrics == old(storage.metrics) + out
    {
      hide Lists, FoldFive, Select;
      if end <= start { return false; }
      var metrics := storage.Query(Window(start, end));
      var buckets := BucketFive(metrics);
      var out := ListBuckets(buckets);
      assert old(storage.metrics) + [] == old(storage.metrics);
      ok := true;
      if |out| > 0 {
        ok := storage.Write(out);
      }
      assert ok ==> storage.metrics == old(storage.metrics) + out;
    }

    /** `CompactAndCleanup` without interference: fold, delete the raw samples, fold again,
        delete the five-minute aggregates.  A failing write ends the run where it stands. */
    method CompactAndCleanup(now: int) returns (ok: bool)
      modifies storage
      ensures ok ==> exists five, hours :: CleanedUp(old(storage.metrics), five, hours, now, storage.metrics)
      ensures ok ==> forall m: Metric ::
                Lookup(m.labels, "__resolution__") == "1h" ||
                (Lookup(m.labels, "__resolution__") == "5m" && m.timestamp >= now - 7 * 24 * HOUR) ==>
                  multiset(storage.metrics)[m] >= old(multiset(storage.metrics)[m])
      ensures !ok ==> storage.metrics == old(storage.metrics) ||
                      exists five :: Lists(five, FoldRaw(Select(old(storage.metrics), FiveWindow(now)))) &&
                                     storage.metrics == AfterRaw(old(storage.metrics), five, now)
    {
      hide Lists, FoldRaw, FoldFive, Select, Remaining;
      ghost var before := storage.metrics;
      ok := Compact5m(now - COMPACT_5M_LOOKBACK, now - COMPACT_5M_DELAY);
      if !ok { return; }
      ghost var five :| Lists(five, FoldRaw(Select(before, FiveWindow(now)))) && storage.metrics == before + five;
      storage.Delete(now - RAW_RETENTION, Some(""));
      ok := Compact1h(now - COMPACT_1H_LOOKBACK, now - COMPACT_1H_DELAY);
      if !ok { return; }
      ghost var hours :| Lists(hours, FoldFive(Select(AfterRaw(before, five, now), HourWindow(now)))) &&
                         storage.metrics == AfterRaw(before, five, now) + hours;
      storage.Delete(now - FIVE_RETENTION, Some("5m"));
      assert CleanedUp(before, five, hours, now, storage.metrics);
      forall m: Metric { CleanupSpares(before, five, hours, now, storage.metrics, m); }
    }
  }

  function FiveWindow(now: int): QueryRequest { Window(now - COMPACT_5M_LOOKBACK, now - COMPACT_5M_DELAY) }
  function HourWindow(now: int): QueryRequest { Window(now - COMPACT_1H_LOOKBACK, now - COMPACT_1H_DELAY) }

  /** The store after the first fold and the raw deletion. */
  function AfterRaw(before: seq<Metric>, five: seq<Metric>, now: int): seq<Metric> {
    Remaining(before + five, now - RAW_RETENTION, Some(""))
  }

  /** A whole run takes away no hourly aggregate, no five-minute one of the last seven days, and no
      raw sample of the last six hours. */
  lemma CleanupSpares(before: seq<Metric>, five: seq<Metric>, hours: seq<Metric>, now: int, after: seq<Metric>, m: Metric)
    requires CleanedUp(before, five, hours, now, after)
    ensures var r := Lookup(m.labels, "__resolution__");
            (r != "" && r != "5m") || (r == "5m" && m.timestamp >= now - 7 * 24 * HOUR) || (r == "" && m.timestamp >= now - 6 * HOUR) ==>
              multiset(after)[m] == multiset(before)[m] + multiset(five)[m] + multiset(hours)[m]
  {
    hide Lists, FoldRaw, FoldFive, Select;
    DeletionLeaves(before + five, now - RAW_RETENTION, Some(""), m);
    DeletionLeaves(AfterRaw(before, five, now) + hours, now - FIVE_RETENTION, Some("5m"), m);
  }

  /** The store after a whole run. */
  ghost predicate CleanedUp(before: seq<Metric>, five: seq<Metric>, hours: seq<Metric>, now: int, after: seq<Metric>) {
    && Lists(five, FoldRaw(Select(before, FiveWindow(now))))
    && Lists(hours, FoldFive(Select(AfterRaw(before, five, now), HourWindow(now))))
    && after == Remaining(AfterRaw(before, five, now) + hours, now - FIVE_RETENTION, Some("5m"))
  }
}
