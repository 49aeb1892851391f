/**
 A store on which compacting a window twice is not compacting it once: two raw samples whose
 labels differ only in a name that encoded aggregates use, and whose values differ by less than
 a millionth (pkg/compaction/types.go, pkg/compaction/doc.go:170).
 */
module Collision {
  import opened Integers
  import opened Options
  import opened Strings
  import opened SeriesKeys
  import opened Metrics
  import opened Decimal
  import opened FixedPoint
  import opened MemoryStorage
  import opened Aggregates
  import opened Compactor
  import opened BadgerKey
  import opened KeyedCompaction
  import B = BadgerStorage
  import Calendar

  function Marked(mark: string): Labels { map[SUM := mark] }

  const LOW: Metric := Metric("m", Gauge, 0.0, Marked("a"), 0)
  const HIGH: Metric := Metric("m", Gauge, 0.0000001, Marked("b"), 0)

  /* ---- the key ---- */

  /** A hash that tells the two series apart from each other and from every other. */
  ghost function Telling(): Hash {
    s => if s == SeriesKey("m", Marked("a")) then 1 else if s == SeriesKey("m", Marked("b")) then 2 else 0
  }

  ghost function HashOf(m: Metric): nat { Telling()(SeriesKey(m.name, m.labels)) }

  lemma SameHash(a: Metric, b: Metric)
    requires a.name == b.name && B.KeyOf(Telling(), a) == B.KeyOf(Telling(), b)
    ensures HashOf(a) == HashOf(b)
  {
    hide BigEndian, SeriesKey, Unsigned;
    var x, y := B.KeyOf(Telling(), a), B.KeyOf(Telling(), b);
    var n := |Prefix(a.name)|;
    assert x[n..n + 8] == BigEndian(HashOf(a) % TWO64, 8) && y[n..n + 8] == BigEndian(HashOf(b) % TWO64, 8);
    Widths();
    ValueOfBigEndian(HashOf(a) % TWO64, 8);
    ValueOfBigEndian(HashOf(b) % TWO64, 8);
  }

  lemma PlainMark(mark: string)
    requires ',' !in mark
    ensures PlainLabels(Marked(mark))
  {
  }

  lemma OtherHash(labels: Labels)
    requires PlainLabels(labels) && labels != Marked("a") && labels != Marked("b")
    ensures Telling()(SeriesKey("m", labels)) == 0
  {
    hide SeriesKey, PlainLabels;
    PlainMark("a");
    PlainMark("b");
    SeriesKeyInjective("m", labels, "m", Marked("a"));
    SeriesKeyInjective("m", labels, "m", Marked("b"));
  }

  lemma Hashes()
    ensures HashOf(LOW) == 1 && HashOf(HIGH) == 2
  {
    hide SeriesKey, PlainLabels;
    PlainMark("a");
    PlainMark("b");
    assert Marked("a")[SUM] == "a" && Marked("b")[SUM] == "b";
    SeriesKeyInjective("m", Marked("a"), "m", Marked("b"));
  }

  /* ---- the store ---- */

  ghost function Two(): B.Db { map[B.KeyOf(Telling(), LOW) := LOW, B.KeyOf(Telling(), HIGH) := HIGH] }

  lemma TwoKeys()
    ensures B.KeyOf(Telling(), LOW) != B.KeyOf(Telling(), HIGH) && B.Keyed(Telling(), Two())
  {
    hide B.KeyOf, HashOf, Telling;
    Hashes();
    if B.KeyOf(Telling(), LOW) == B.KeyOf(Telling(), HIGH) { SameHash(LOW, HIGH); }
  }

  lemma PairElements(j: string, k: string)
    ensures Elements([j, k]) == {j, k}
  {
    assert [j, k][0] == j && [j, k][1] == k;
  }

  lemma PairListed(keys: seq<string>, j: string, k: string)
    requires Ascending(keys) && Elements(keys) == {j, k} && j != k
    ensures keys == [j, k] || keys == [k, j]
  {
    BelowTotal(j, k);
    PairElements(j, k);
    PairElements(k, j);
    hide Below, Elements;
    if Below(j, k) {
      AscendingUnique(keys, [j, k]);
    } else {
      AscendingUnique(keys, [k, j]);
    }
  }

  lemma PairScanned(keys: seq<string>, db: B.Db, j: string, k: string)
    requires keys == [j, k] && j in db && k in db
    ensures B.Scanned(keys, db, "") == [db[j], db[k]]
  {
    assert keys[..1] == [j] && keys[..0] == [];
    assert B.Scanned(keys[..1], db, "") == [db[j]];
  }

  lemma TwoStored()
    ensures B.All(Two()) == [LOW, HIGH] || B.All(Two()) == [HIGH, LOW]
  {
    hide B.KeyOf, Ascending, Elements, B.Scanned;
    TwoKeys();
    var db, j, k := Two(), B.KeyOf(Telling(), LOW), B.KeyOf(Telling(), HIGH);
    var keys := Sorted(db.Keys);
    assert db.Keys == {j, k};
    PairListed(keys, j, k);
    if keys == [j, k] { PairScanned(keys, db, j, k); } else { PairScanned(keys, db, k, j); }
  }

  lemma PairSelected(x: Metric, y: Metric, req: QueryRequest)
    requires Matches(x, req) && Matches(y, req)
    ensures Select([x, y], req) == [x, y]
  {
    hide Matches;
    assert [x, y][..1] == [x] && [x][..0] == [];
    assert Select([x], req) == [x];
  }

  lemma TwoSelected(end: int)
    requires end >= 0
    ensures var ms := Select(B.All(Two()), Window(0, end)); ms == [LOW, HIGH] || ms == [HIGH, LOW]
  {
    hide Two, Select, B.All;
    TwoStored();
    PairSelected(LOW, HIGH, Window(0, end));
    PairSelected(HIGH, LOW, Window(0, end));
  }

  /* ---- the two groups ---- */

  lemma KeysApart()
    ensures RawKey(LOW) != RawKey(HIGH)
  {
    hide AggregateKey, PlainLabels;
    PlainMark("a");
    PlainMark("b");
    assert Marked("a")[SUM] == "a" && Marked("b")[SUM] == "b";
    AggregateKeyInjective("m", Marked("a"), 0, "m", Marked("b"), 0);
  }

  lemma BothRaw()
    ensures IsRaw(LOW) && IsRaw(HIGH)
  {
  }

  lemma Texts()
    ensures FormatFloat(0.0) == FormatFloat(0.0000001)
  {
    assert Micros(0.0) == 0 && Micros(0.0000001) == 0;
  }

  /** Each sample is a group by itself. */
  lemma PairGroups(x: Metric, y: Metric)
    requires IsRaw(x) && IsRaw(y) && RawKey(x) != RawKey(y)
    ensures var ms := [x, y];
            && Opens(ms, 0) && Opens(ms, 1)
            && GroupStats(ms, RawKey(x)) == Some(Single(x.value)) && GroupStats(ms, RawKey(y)) == Some(Single(y.value))
  {
    hide RawKey, IsRaw;
    var ms := [x, y];
    assert ms[..1] == [x] && ms[..0] == [];
    assert [x][..0] == [];
    assert GroupStats([x], RawKey(x)) == Some(Single(x.value)) && GroupStats([x], RawKey(y)) == None;
  }

  lemma PairClashes(x: Metric, y: Metric)
    requires (x == LOW && y == HIGH) || (x == HIGH && y == LOW)
    ensures Clash([x, y])
  {
    hide RawKey, IsRaw, FormatFloat, GroupStats, Opens;
    KeysApart();
    BothRaw();
    PairGroups(x, y);
    Texts();
    assert WithoutMetadata(x.labels) == map[] == WithoutMetadata(y.labels);
    assert Clashing([x, y], 0, 1);
  }

  /* ---- what they are written as ---- */

  lemma PairBuckets(x: Metric, y: Metric, m: Metric)
    requires IsRaw(x) && IsRaw(y) && RawKey(x) != RawKey(y) && Encodes(FoldRaw([x, y]), m)
    ensures m == ToMetric(RawAggregate(x)) || m == ToMetric(RawAggregate(y))
  {
    hide RawKey, IsRaw, ToMetric, Opens, GroupStats;
    var ms := [x, y];
    var k :| k in FoldRaw(ms) && m == ToMetric(FoldRaw(ms)[k]);
    var i := BucketOpened(ms, k);
    PairGroups(x, y);
    GroupBucket(ms, i);
    assert RawAggregate(ms[i]).(stats := Single(ms[i].value)) == RawAggregate(ms[i]);
  }

  lemma FormatPlain(x: real)
    ensures ',' !in FormatFloat(x)
  {
    var n := Micros(x);
    Calendar.DigitsPlain(Digits(n / MICRO));
    Calendar.DigitsPlain(Padded(n % MICRO, 6));
  }

  /** Both are written with the same name, labels and time, whose hash is that of neither. */
  lemma Written(m: Metric)
    requires m == LOW || m == HIGH
    ensures var w := ToMetric(RawAggregate(m)); w.name == "m" && w.timestamp == 0 && w.labels == Common() && HashOf(w) == 0
  {
    hide FormatFloat, SeriesKey, PlainLabels, Telling;
    Texts();
    assert ToMetric(RawAggregate(m)).labels == Common();
    CommonPlain();
    assert RESOLUTION in Common() && RESOLUTION !in Marked("a") && RESOLUTION !in Marked("b");
    OtherHash(Common());
  }

  function Common(): Labels { MetadataLabels("5m", Single(0.0)) }

  lemma CommonPlain()
    ensures PlainLabels(Common())
  {
    hide FormatFloat, Digits;
    FormatPlain(0.0);
    Calendar.DigitsPlain(Digits(1));
  }

  lemma TwoSeparate(end: int)
    requires end >= 0
    ensures Separates(Telling(), Two(), RawBucketsOf(Two(), 0, end))
  {
    hide RawKey, IsRaw, ToMetric, RawAggregate, Encodes, HashOf, Telling, B.KeyOf, Select, FoldRaw;
    TwoSelected(end);
    KeysApart();
    BothRaw();
    Hashes();
    Written(LOW);
    Written(HIGH);
    var b := RawBucketsOf(Two(), 0, end);
    forall m, n | AtHand(Two(), b, m) && AtHand(Two(), b, n) ensures SameKeySameMetric(Telling(), m, n) {
      Handed(b, m, end);
      Handed(b, n, end);
      if B.KeyOf(Telling(), m) == B.KeyOf(Telling(), n) { SameHash(m, n); }
    }
  }

  lemma StoredTwo(m: Metric)
    ensures m in Two().Values ==> m == LOW || m == HIGH
  {
    hide B.KeyOf;
  }

  lemma Handed(b: Buckets, m: Metric, end: int)
    requires end >= 0 && b == RawBucketsOf(Two(), 0, end) && AtHand(Two(), b, m)
    ensures m == LOW || m == HIGH || m == ToMetric(RawAggregate(LOW)) || m == ToMetric(RawAggregate(HIGH))
  {
    hide RawKey, IsRaw, ToMetric, RawAggregate, Encodes, Two, Select, FoldRaw;
    StoredTwo(m);
    TwoSelected(end);
    KeysApart();
    BothRaw();
    if Encodes(b, m) {
      if b == FoldRaw([LOW, HIGH]) { PairBuckets(LOW, HIGH, m); } else { PairBuckets(HIGH, LOW, m); }
    }
  }

  /** A store with the two samples and a key that separates everything at hand: a second run can
      change what the first one wrote. */
  lemma SecondRunChanges(end: int)
    requires end > 0
    ensures B.Keyed(Telling(), Two()) && Separates(Telling(), Two(), RawBucketsOf(Two(), 0, end))
    ensures !SecondRunChangesNothing(Telling(), Two(), 0, end)
  {
    hide B.Keyed, Separates, RawBucketsOf, SecondRunChangesNothing, Clash, Two, Telling, Select;
    TwoKeys();
    TwoSeparate(end);
    RawTwiceExactly(Telling(), Two(), 0, end);
    TwoSelected(end);
    PairClashes(LOW, HIGH);
    PairClashes(HIGH, LOW);
  }
}
