/**
 Downsampling on the Badger store, where the key of an aggregate is overwritten rather than
 appended to: a second run over the same window changes nothing (pkg/compaction/doc.go:170).
 */
module KeyedCompaction {
  import opened Instants
  import opened Options
  import opened Strings
  import opened SeriesKeys
  import opened Metrics
  import opened Decimal
  import opened FixedPoint
  import opened MemoryStorage
  import opened Aggregates
  import opened Compactor
  import opened BadgerKey
  import B = BadgerStorage

  /* ---- the runs ---- */

  class KeyedCompactor {
    const storage: B.Storage

    constructor (store: B.Storage)
      ensures storage == store
    {
      storage := store;
    }

    /** `Compact5m` on the keyed store.  `!ok` is the error for an empty range. */
    method Compact5m(start: int, end: int) returns (ok: bool)
      requires storage.Valid()
      modifies storage
      ensures storage.Valid() && ok == (start < end)
      ensures !ok ==> storage.db == old(storage.db)
      ensures ok ==> exists out :: RawStep(storage.hash, old(storage.db), start, end, out, storage.db)
    {
      hide Lists, FoldRaw, Select, B.Keyed, B.Put;
      if end <= start { return false; }
      ghost var db := storage.db;
      WindowAnswer(db, start, end);
      var raw := storage.Query(Window(start, end));
      var buckets := BucketRaw(raw);
      var out := ListBuckets(buckets);
      NoWrite(storage.hash, db, out);
      if |out| > 0 { storage.Write(out); }
      assert RawStep(storage.hash, db, start, end, out, storage.db);
      ok := true;
    }

    /** `Compact1h` on the keyed store. */
    method Compact1h(start: int, end: int) returns (ok: bool)
      requires storage.Valid()
      modifies storage
      ensures storage.Valid() && ok == (start < end)
      ensures !ok ==> storage.db == old(storage.db)
      ensures ok ==> exists out :: FiveStep(storage.hash, old(storage.db), start, end, out, storage.db)
    {
      hide Lists, FoldFive, Select, B.Keyed, B.Put;
      if end <= start { return false; }
      ghost var db := storage.db;
      WindowAnswer(db, start, end);
      var metrics := storage.Query(Window(start, end));
      var buckets := BucketFive(metrics);
      var out := ListBuckets(buckets);
      NoWrite(storage.hash, db, out);
      if |out| > 0 { storage.Write(out); }
      assert FiveStep(storage.hash, db, start, end, out, storage.db);
      ok := true;
    }
  }

  /** One run of `Compact5m` from `db` to `after`, writing `out`. */
  ghost predicate RawStep(hash: Hash, db: B.Db, start: int, end: int, out: seq<Metric>, after: B.Db) {
    && Lists(out, FoldRaw(Select(B.All(db), Window(start, end))))
    && after == B.Put(hash, db, out)
  }

  ghost predicate FiveStep(hash: Hash, db: B.Db, start: int, end: int, out: seq<Metric>, after: B.Db) {
    && Lists(out, FoldFive(Select(B.All(db), Window(start, end))))
    && after == B.Put(hash, db, out)
  }

  lemma WindowAnswer(db: B.Db, start: int, end: int)
    ensures Limited(B.Answer(db, Window(start, end)), 0) == Select(B.All(db), Window(start, end))
  {
  }

  lemma NoWrite(hash: Hash, db: B.Db, out: seq<Metric>)
    ensures |out| == 0 ==> B.Put(hash, db, out) == db
  {
  }

  /* ---- what the folds put into buckets ---- */

  predicate NoMetadata(labels: Labels) {
    RESOLUTION !in labels && SUM !in labels && COUNT !in labels && MIN !in labels && MAX !in labels
  }

  /** The key of a bucket is made from what the bucket holds. */
  ghost predicate Identified(b: Buckets, resolution: string) {
    forall k :: k in b ==>
      && k == AggregateKey(b[k].name, b[k].labels, b[k].timestamp / SECOND)
      && b[k].resolution == resolution
  }

  ghost predicate PlainBuckets(b: Buckets) {
    forall k :: k in b ==> NoMetadata(b[k].labels)
  }

  lemma {:induction false} RawBuckets(ms: seq<Metric>)
    ensures Identified(FoldRaw(ms), "5m")
    ensures (forall i :: 0 <= i < |ms| ==> IsRaw(ms[i]) ==> NoMetadata(ms[i].labels)) ==> PlainBuckets(FoldRaw(ms))
  {
    hide AggregateKey, NoMetadata;
    if ms != [] { RawBuckets(ms[..|ms| - 1]); }
  }

  lemma DecodedPlain(m: Metric)
    ensures var a := AsFive(m); a.Some? ==>
              NoMetadata(a.value.labels) && a.value.timestamp == m.timestamp && Resolution(m) == "5m"
  {
    MetadataIsInternal();
  }

  lemma {:induction false} FiveBuckets(ms: seq<Metric>)
    ensures Identified(FoldFive(ms), "1h") && PlainBuckets(FoldFive(ms))
  {
    hide AggregateKey, AsFive, NoMetadata;
    if ms != [] {
      FiveBuckets(ms[..|ms| - 1]);
      DecodedPlain(ms[|ms| - 1]);
    }
  }

  lemma {:induction false} SelectedIn(ms: seq<Metric>, req: QueryRequest, i: nat)
    requires i < |Select(ms, req)|
    ensures Matches(Select(ms, req)[i], req) && Select(ms, req)[i] in ms
  {
    hide Matches;
    var front := ms[..|ms| - 1];
    if i < |Select(front, req)| { SelectedIn(front, req, i); }
  }

  lemma StoredIn(db: B.Db, m: Metric)
    requires m in B.All(db)
    ensures m in db.Values
  {
    var keys := Sorted(db.Keys);
    B.KeysIn(keys, db);
    var i :| 0 <= i < |B.All(db)| && B.All(db)[i] == m;
    B.ScannedAre(keys, db, i);
  }

  /** What a window query on the store returns. */
  lemma {:induction false} SelectedStored(hash: Hash, db: B.Db, start: int, end: int)
    requires B.Keyed(hash, db)
    ensures forall m :: m in Select(B.All(db), Window(start, end)) ==>
              m in db.Values && Matches(m, Window(start, end))
  {
    hide Select;
    forall m | m in Select(B.All(db), Window(start, end))
      ensures m in db.Values && Matches(m, Window(start, end))
    {
      var s := Select(B.All(db), Window(start, end));
      var i :| 0 <= i < |s| && s[i] == m;
      SelectedIn(B.All(db), Window(start, end), i);
      StoredIn(db, m);
    }
  }

  /* ---- writing with an injective key ---- */

  ghost predicate Encodes(b: Buckets, m: Metric) { exists k :: k in b && m == ToMetric(b[k]) }

  /** The metrics at hand: those stored and those the buckets are written as. */
  ghost predicate AtHand(db: B.Db, b: Buckets, m: Metric) { m in db.Values || Encodes(b, m) }

  /** The key separates the metrics at hand by name, labels and timestamp. */
  ghost predicate Separates(hash: Hash, db: B.Db, b: Buckets) {
    forall m, n :: AtHand(db, b, m) && AtHand(db, b, n) ==> SameKeySameMetric(hash, m, n)
  }

  ghost predicate SameKeySameMetric(hash: Hash, a: Metric, b: Metric) {
    B.KeyOf(hash, a) == B.KeyOf(hash, b) ==> SameIdentity(a, b)
  }

  predicate SameIdentity(a: Metric, b: Metric) {
    a.name == b.name && a.labels == b.labels && a.timestamp == b.timestamp
  }

  /** No two buckets are written with the same name, labels and time but different averages. */
  ghost predicate Unambiguous(b: Buckets) {
    forall m, n :: Encodes(b, m) && Encodes(b, n) && SameIdentity(m, n) ==> m == n
  }

  /** Where two metrics of a batch share a key they are the same metric. */
  ghost predicate Coherent(hash: Hash, out: seq<Metric>)
  {
    forall i, j :: 0 <= i < j < |out| && B.KeyOf(hash, out[i]) == B.KeyOf(hash, out[j]) ==> out[i] == out[j]
  }

  /** After a coherent write each written metric stands under its key. */
  lemma {:induction false} PutEntries(hash: Hash, db: B.Db, out: seq<Metric>, i: nat)
    requires Coherent(hash, out) && i < |out|
    ensures B.KeyOf(hash, out[i]) in B.Put(hash, db, out) && B.Put(hash, db, out)[B.KeyOf(hash, out[i])] == out[i]
  {
    hide B.KeyOf, B.Keyed;
    var front, last := out[..|out| - 1], out[|out| - 1];
    if i < |front| { PutEntries(hash, db, front, i); }
  }

  ghost predicate Touched(hash: Hash, out: seq<Metric>, k: string)
  {
    exists i :: 0 <= i < |out| && k == B.KeyOf(hash, out[i])
  }

  /** What stands under a key after any write: one of the written metrics with that key, or
      else what stood there before. */
  lemma {:induction false} PutAt(hash: Hash, db: B.Db, out: seq<Metric>, k: string)
    ensures !Touched(hash, out, k) ==> (k in B.Put(hash, db, out) <==> k in db) && (k in db ==> B.Put(hash, db, out)[k] == db[k])
    ensures Touched(hash, out, k) ==> k in B.Put(hash, db, out)
    ensures Touched(hash, out, k) ==>
              (exists i :: 0 <= i < |out| && k == B.KeyOf(hash, out[i]) && B.Put(hash, db, out)[k] == out[i])
  {
    hide B.KeyOf, B.Keyed;
    if out != [] {
      var front, last := out[..|out| - 1], out[|out| - 1];
      PutAt(hash, db, front, k);
      TouchedStep(hash, out, k);
      if k == B.KeyOf(hash, last) {
        assert out[|out| - 1] == last;
      } else if Touched(hash, front, k) {
        var i :| 0 <= i < |front| && k == B.KeyOf(hash, front[i]) && B.Put(hash, db, front)[k] == front[i];
        assert out[i] == front[i];
      }
    }
  }

  lemma TouchedStep(hash: Hash, out: seq<Metric>, k: string)
    requires out != []
    ensures Touched(hash, out, k) <==> Touched(hash, out[..|out| - 1], k) || k == B.KeyOf(hash, out[|out| - 1])
  {
    hide B.KeyOf;
    var front := out[..|out| - 1];
    if Touched(hash, front, k) {
      var i :| 0 <= i < |front| && k == B.KeyOf(hash, front[i]);
      assert out[i] == front[i];
    }
    if k == B.KeyOf(hash, out[|out| - 1]) { assert Touched(hash, out, k); }
    if Touched(hash, out, k) {
      var i :| 0 <= i < |out| && k == B.KeyOf(hash, out[i]);
      assert i < |front| ==> front[i] == out[i];
    }
  }

  lemma {:induction false} PutAgain(hash: Hash, db: B.Db, out: seq<Metric>)
    requires forall i :: 0 <= i < |out| ==> B.KeyOf(hash, out[i]) in db && db[B.KeyOf(hash, out[i])] == out[i]
    ensures B.Put(hash, db, out) == db
  {
    hide B.KeyOf;
    if out != [] { PutAgain(hash, db, out[..|out| - 1]); }
  }

  lemma {:induction false} EncodedLabels(a: Aggregate, b: Aggregate)
    requires NoMetadata(a.labels) && NoMetadata(b.labels)
    requires ToMetric(a).labels == ToMetric(b).labels
    ensures a.labels == b.labels
  {
    Stripped(a);
    Stripped(b);
  }

  function WithoutMetadata(labels: Labels): Labels { labels - {RESOLUTION, SUM, COUNT, MIN, MAX} }

  lemma Stripped(a: Aggregate)
    requires NoMetadata(a.labels)
    ensures WithoutMetadata(ToMetric(a).labels) == a.labels
  {
    hide FormatFloat, Digits;
    MetadataIsInternal();
  }

  lemma EncodedResolution(a: Aggregate)
    ensures Resolution(ToMetric(a)) == a.resolution
  {
    MetadataIsInternal();
  }

  /** A listing holds exactly the metrics the buckets are written as. */
  lemma ListedEncodes(out: seq<Metric>, b: Buckets)
    requires Lists(out, b)
    ensures forall i :: 0 <= i < |out| ==> Encodes(b, out[i])
    ensures forall k :: k in b ==> ToMetric(b[k]) in out
  {
    hide ToMetric, Encodes;
    var ks :| Listing(ks, out, b);
    EnumeratedKeys(ks, b);
    forall i | 0 <= i < |out| ensures Encodes(b, out[i]) {
      MetricsOfAt(ks, b, i);
      EncodesKey(b, ks[i]);
    }
    forall k | k in b ensures ToMetric(b[k]) in out {
      assert k in Elements(ks);
      var i :| 0 <= i < |ks| && ks[i] == k;
      MetricsOfAt(ks, b, i);
    }
  }

  lemma EncodesKey(b: Buckets, k: string)
    requires k in b
    ensures Encodes(b, ToMetric(b[k]))
  {
  }

  lemma ListedResolution(out: seq<Metric>, b: Buckets, resolution: string)
    requires Lists(out, b) && Identified(b, resolution)
    ensures forall i :: 0 <= i < |out| ==> Resolution(out[i]) == resolution
  {
    hide ToMetric, Lists, Resolution;
    ListedEncodes(out, b);
    forall i | 0 <= i < |out| ensures Resolution(out[i]) == resolution {
      assert Encodes(b, out[i]);
      var k :| k in b && out[i] == ToMetric(b[k]);
      EncodedResolution(b[k]);
    }
  }

  lemma {:induction false} ListedCoherent(hash: Hash, db: B.Db, out: seq<Metric>, b: Buckets)
    requires Lists(out, b) && Unambiguous(b) && Separates(hash, db, b)
    ensures Coherent(hash, out)
  {
    hide Encodes, B.KeyOf, Lists;
    ListedEncodes(out, b);
    forall i, j | 0 <= i < j < |out| && B.KeyOf(hash, out[i]) == B.KeyOf(hash, out[j]) ensures out[i] == out[j] {
      assert AtHand(db, b, out[i]) && AtHand(db, b, out[j]);
      assert SameKeySameMetric(hash, out[i], out[j]);
    }
  }

  /** Buckets whose labels hold no metadata are never written alike. */
  lemma {:induction false} PlainIsUnambiguous(b: Buckets, resolution: string)
    requires Identified(b, resolution) && PlainBuckets(b)
    ensures Unambiguous(b)
  {
    hide ToMetric, NoMetadata, AggregateKey;
    forall m, n | Encodes(b, m) && Encodes(b, n) && SameIdentity(m, n) ensures m == n {
      var j :| j in b && m == ToMetric(b[j]);
      var k :| k in b && n == ToMetric(b[k]);
      EncodedIdentity(b[j]);
      EncodedIdentity(b[k]);
      EncodedLabels(b[j], b[k]);
    }
  }

  lemma EncodedIdentity(a: Aggregate)
    ensures ToMetric(a).name == a.name && ToMetric(a).timestamp == a.timestamp
  {
  }

  /* ---- the sources survive the write ---- */

  /** A write overwrites only metrics of its own resolution. */
  lemma Overwritten(hash: Hash, db: B.Db, out: seq<Metric>, b: Buckets, k: string, i: nat)
    requires B.Keyed(hash, db) && Lists(out, b) && Separates(hash, db, b)
    requires k in db && i < |out| && k == B.KeyOf(hash, out[i])
    ensures Resolution(db[k]) == Resolution(out[i])
  {
    hide B.KeyOf, Lists, Encodes;
    ListedEncodes(out, b);
    assert AtHand(db, b, db[k]) && AtHand(db, b, out[i]);
    assert SameKeySameMetric(hash, db[k], out[i]);
  }

  /** A metric of another resolution than everything written keeps its place. */
  lemma {:induction false} SourcesStay(hash: Hash, db: B.Db, out: seq<Metric>, b: Buckets, source: string, target: string)
    requires B.Keyed(hash, db) && Lists(out, b) && Separates(hash, db, b)
    requires source != target && Identified(b, target)
    ensures B.AgreeOn(db, B.Put(hash, db, out), m => Resolution(m) == source)
  {
    hide B.KeyOf, Resolution, Separates, B.Keyed, B.Put, Lists, Identified;
    var after := B.Put(hash, db, out);
    ListedResolution(out, b, target);
    forall k ensures (k in db && Resolution(db[k]) == source <==> k in after && Resolution(after[k]) == source) &&
                     (k in db && k in after && Resolution(db[k]) == source ==> db[k] == after[k])
    {
      PutAt(hash, db, out, k);
      if Touched(hash, out, k) {
        var i :| 0 <= i < |out| && k == B.KeyOf(hash, out[i]) && after[k] == out[i];
        if k in db { Overwritten(hash, db, out, b, k, i); }
      }
    }
  }

  lemma {:induction false} FoldRawFiltered(ms: seq<Metric>)
    ensures FoldRaw(ms) == FoldRaw(B.Filter(ms, m => Resolution(m) == ""))
  {
    hide Absorb, RawKey;
    if ms != [] {
      var front, f := ms[..|ms| - 1], (m: Metric) => Resolution(m) == "";
      FoldRawFiltered(front);
      var rest := B.Filter(front, f);
      assert (rest + [ms[|ms| - 1]])[..|rest|] == rest;
    }
  }

  lemma {:induction false} FoldFiveFiltered(ms: seq<Metric>)
    ensures FoldFive(ms) == FoldFive(B.Filter(ms, m => Resolution(m) == "5m"))
  {
    hide Absorb, FiveKey, AsFive;
    if ms != [] {
      var front, f := ms[..|ms| - 1], (m: Metric) => Resolution(m) == "5m";
      FoldFiveFiltered(front);
      DecodedPlain(ms[|ms| - 1]);
      var rest := B.Filter(front, f);
      assert (rest + [ms[|ms| - 1]])[..|rest|] == rest;
    }
  }

  lemma SameSources(a: B.Db, b: B.Db, req: QueryRequest, source: string)
    requires B.AgreeOn(a, b, m => Resolution(m) == source)
    ensures B.Filter(Select(B.All(a), req), m => Resolution(m) == source) ==
            B.Filter(Select(B.All(b), req), m => Resolution(m) == source)
  {
    hide Select, B.Filter, B.All, Matches;
    var f, g := (m: Metric) => Resolution(m) == source, (m: Metric) => Matches(m, req);
    B.FilterAgrees(a, b, f);
    B.SelectIsFilter(B.All(a), req);
    B.SelectIsFilter(B.All(b), req);
    B.FilterTwice(B.All(a), g, f);
    B.FilterTwice(B.All(b), g, f);
  }

  /** The same buckets again write what is there already. */
  lemma {:induction false} WrittenAgain(hash: Hash, after: B.Db, b: Buckets, out: seq<Metric>, again: seq<Metric>)
    requires Lists(out, b) && Lists(again, b)
    requires forall i :: 0 <= i < |out| ==> B.KeyOf(hash, out[i]) in after && after[B.KeyOf(hash, out[i])] == out[i]
    ensures B.Put(hash, after, again) == after
  {
    hide B.KeyOf, ToMetric;
    var ks :| Listing(ks, out, b);
    var ls :| Listing(ls, again, b);
    EnumeratedKeys(ks, b);
    EnumeratedKeys(ls, b);
    forall i | 0 <= i < |again| ensures again[i] in out {
      assert ls[i] in Elements(ks);
      var j :| 0 <= j < |ks| && ks[j] == ls[i];
      MetricsOfAt(ls, b, i);
      MetricsOfAt(ks, b, j);
    }
    PutAgain(hash, after, again);
  }

  /** The buckets `Compact5m` makes of a window of the store. */
  ghost function RawBucketsOf(db: B.Db, start: int, end: int): Buckets { FoldRaw(Select(B.All(db), Window(start, end))) }

  ghost function FiveBucketsOf(db: B.Db, start: int, end: int): Buckets { FoldFive(Select(B.All(db), Window(start, end))) }

  /** A second run over the window folds the same buckets. */
  lemma {:induction false} SameRawBuckets(hash: Hash, db: B.Db, start: int, end: int, out: seq<Metric>, after: B.Db)
    requires B.Keyed(hash, db) && Separates(hash, db, RawBucketsOf(db, start, end))
    requires RawStep(hash, db, start, end, out, after)
    ensures RawBucketsOf(after, start, end) == RawBucketsOf(db, start, end)
  {
    hide Select, FoldRaw, Lists, B.All, B.Filter, Separates, B.Put, B.Keyed, Identified, B.AgreeOn;
    var req := Window(start, end);
    RawBuckets(Select(B.All(db), req));
    SourcesStay(hash, db, out, RawBucketsOf(db, start, end), "", "5m");
    SameSources(db, after, req, "");
    FoldRawFiltered(Select(B.All(db), req));
    FoldRawFiltered(Select(B.All(after), req));
  }

  lemma {:induction false} SameFiveBuckets(hash: Hash, db: B.Db, start: int, end: int, out: seq<Metric>, after: B.Db)
    requires B.Keyed(hash, db) && Separates(hash, db, FiveBucketsOf(db, start, end))
    requires FiveStep(hash, db, start, end, out, after)
    ensures FiveBucketsOf(after, start, end) == FiveBucketsOf(db, start, end)
  {
    hide Select, FoldFive, Lists, B.All, B.Filter, Separates, B.Put, B.Keyed, Identified, B.AgreeOn, PlainBuckets;
    var req := Window(start, end);
    FiveBuckets(Select(B.All(db), req));
    SourcesStay(hash, db, out, FiveBucketsOf(db, start, end), "5m", "1h");
    SameSources(db, after, req, "5m");
    FoldFiveFiltered(Select(B.All(db), req));
    FoldFiveFiltered(Select(B.All(after), req));
  }

  /** Running `Compact5m` again over the window, with nothing written in between, leaves the
      store as it is, unless two buckets are written alike with different averages. */
  lemma {:induction false} RawTwiceIsOnce(hash: Hash, db: B.Db, start: int, end: int, out: seq<Metric>, after: B.Db, again: seq<Metric>, last: B.Db)
    requires B.Keyed(hash, db) && Separates(hash, db, RawBucketsOf(db, start, end)) && Unambiguous(RawBucketsOf(db, start, end))
    requires RawStep(hash, db, start, end, out, after) && RawStep(hash, after, start, end, again, last)
    ensures last == after
  {
    hide Select, FoldRaw, Lists, B.All, B.KeyOf, Separates, Unambiguous, B.Put, B.Keyed;
    var b := RawBucketsOf(db, start, end);
    SameRawBuckets(hash, db, start, end, out, after);
    ListedCoherent(hash, db, out, b);
    forall i | 0 <= i < |out| ensures B.KeyOf(hash, out[i]) in after && after[B.KeyOf(hash, out[i])] == out[i] { PutEntries(hash, db, out, i); }
    WrittenAgain(hash, after, b, out, again);
  }

  /** The same for `Compact1h`, whose sources never make such buckets. */
  lemma {:induction false} FiveTwiceIsOnce(hash: Hash, db: B.Db, start: int, end: int, out: seq<Metric>, after: B.Db, again: seq<Metric>, last: B.Db)
    requires B.Keyed(hash, db) && Separates(hash, db, FiveBucketsOf(db, start, end))
    requires FiveStep(hash, db, start, end, out, after) && FiveStep(hash, after, start, end, again, last)
    ensures last == after
  {
    hide Select, FoldFive, Lists, B.All, B.KeyOf, Separates, Unambiguous, B.Put, B.Keyed, Identified, PlainBuckets;
    var b := FiveBucketsOf(db, start, end);
    SameFiveBuckets(hash, db, start, end, out, after);
    FiveBuckets(Select(B.All(db), Window(start, end)));
    PlainIsUnambiguous(b, "1h");
    ListedCoherent(hash, db, out, b);
    forall i | 0 <= i < |out| ensures B.KeyOf(hash, out[i]) in after && after[B.KeyOf(hash, out[i])] == out[i] { PutEntries(hash, db, out, i); }
    WrittenAgain(hash, after, b, out, again);
  }

  /** Raw samples without metadata labels never make buckets that are written alike. */
  lemma {:induction false} PlainSamplesAgree(hash: Hash, db: B.Db, start: int, end: int)
    requires B.Keyed(hash, db) && forall m :: m in db.Values && IsRaw(m) ==> NoMetadata(m.labels)
    ensures Unambiguous(RawBucketsOf(db, start, end))
  {
    hide Select, FoldRaw, B.All, NoMetadata, IsRaw, B.Keyed, Identified, PlainBuckets, Unambiguous;
    var ms := Select(B.All(db), Window(start, end));
    SelectedStored(hash, db, start, end);
    forall i | 0 <= i < |ms| && IsRaw(ms[i]) ensures NoMetadata(ms[i].labels) { assert ms[i] in ms; }
    RawBuckets(ms);
    PlainIsUnambiguous(FoldRaw(ms), "5m");
  }

  /** A listing that ends in a given bucket. */
  lemma ListingEndingIn(b: Buckets, k: string) returns (out: seq<Metric>)
    requires k in b
    ensures Lists(out, b) && out != [] && out[|out| - 1] == ToMetric(b[k])
  {
    hide ToMetric, Elements;
    var front := Sorted(b.Keys - {k});
    var ks := front + [k];
    AppendElement(front, k);
    forall i, j | 0 <= i < j < |ks| ensures ks[i] != ks[j] { DistinctWith(front, k, i, j); }
    assert Enumerates(ks, b);
    EnumeratedKeys(ks, b);
    out := MetricsOf(ks, b);
    MetricsOfAt(ks, b, |ks| - 1);
    assert Listing(ks, out, b);
  }

  lemma DistinctWith(front: seq<string>, k: string, i: nat, j: nat)
    requires Ascending(front) && k !in Elements(front) && i < j < |front + [k]|
    ensures (front + [k])[i] != (front + [k])[j]
  {
    NewElement(front, k);
    if j < |front| { BelowIrreflexive(front[i], front[j]); }
  }

  lemma RawStepExists(hash: Hash, db: B.Db, start: int, end: int, out: seq<Metric>)
    requires Lists(out, RawBucketsOf(db, start, end))
    ensures RawStep(hash, db, start, end, out, B.Put(hash, db, out))
  {
  }

  lemma LastStands(hash: Hash, db: B.Db, out: seq<Metric>)
    requires out != []
    ensures var m := out[|out| - 1]; B.KeyOf(hash, m) in B.Put(hash, db, out) && B.Put(hash, db, out)[B.KeyOf(hash, m)] == m
  {
    hide B.KeyOf, B.Keyed;
  }

  /** Two buckets written alike with different averages: the order in which a map range visits
      them decides which one stays, so a second run may change the store. */
  lemma {:induction false} AmbiguousChanges(hash: Hash, db: B.Db, start: int, end: int, j: string, k: string)
      returns (out: seq<Metric>, after: B.Db, again: seq<Metric>, last: B.Db)
    requires B.Keyed(hash, db) && Separates(hash, db, RawBucketsOf(db, start, end))
    requires var b := RawBucketsOf(db, start, end);
             j in b && k in b && SameIdentity(ToMetric(b[j]), ToMetric(b[k])) && ToMetric(b[j]) != ToMetric(b[k])
    ensures RawStep(hash, db, start, end, out, after) && RawStep(hash, after, start, end, again, last) && last != after
  {
    hide RawBucketsOf, Lists, Separates, B.Put, B.Keyed, RawStep, ToMetric, MakeKey;
    var b := RawBucketsOf(db, start, end);
    out := ListingEndingIn(b, j);
    RawStepExists(hash, db, start, end, out);
    after := B.Put(hash, db, out);
    SameRawBuckets(hash, db, start, end, out, after);
    again := ListingEndingIn(b, k);
    RawStepExists(hash, after, start, end, again);
    last := B.Put(hash, after, again);
    LastStands(hash, db, out);
    LastStands(hash, after, again);
  }

  ghost predicate SecondRunChangesNothing(hash: Hash, db: B.Db, start: int, end: int) {
    forall out, after, again, last ::
      RawStep(hash, db, start, end, out, after) && RawStep(hash, after, start, end, again, last) ==> last == after
  }

  lemma {:induction false} RawTwiceByBuckets(hash: Hash, db: B.Db, start: int, end: int)
    requires B.Keyed(hash, db) && Separates(hash, db, RawBucketsOf(db, start, end))
    ensures SecondRunChangesNothing(hash, db, start, end) <==> Unambiguous(RawBucketsOf(db, start, end))
  {
    hide RawBucketsOf, RawStep, Separates, B.Keyed, ToMetric, SameIdentity;
    var b := RawBucketsOf(db, start, end);
    if Unambiguous(b) {
      forall out, after, again, last | RawStep(hash, db, start, end, out, after) && RawStep(hash, after, start, end, again, last)
        ensures last == after
      {
        RawTwiceIsOnce(hash, db, start, end, out, after, again, last);
      }
    } else {
      var m, n :| Encodes(b, m) && Encodes(b, n) && SameIdentity(m, n) && m != n;
      var j :| j in b && m == ToMetric(b[j]);
      var k :| k in b && n == ToMetric(b[k]);
      var out, after, again, last := AmbiguousChanges(hash, db, start, end, j, k);
    }
  }

  /* ---- the condition on the samples ---- */

  /** The statistics of the raw samples with a key. */
  ghost function GroupStats(ms: seq<Metric>, key: string): Option<Stats> {
    if ms == [] then None
    else
      var rest, m := GroupStats(ms[..|ms| - 1], key), ms[|ms| - 1];
      if !IsRaw(m) || RawKey(m) != key then rest
      else if rest.None? then Some(Single(m.value))
      else Some(Merge(rest.value, Single(m.value)))
  }

  /** A raw sample that is the first of its group. */
  ghost predicate Opens(ms: seq<Metric>, i: nat)
    requires i < |ms|
  {
    IsRaw(ms[i]) && forall h :: 0 <= h < i && IsRaw(ms[h]) ==> RawKey(ms[h]) != RawKey(ms[i])
  }

  /** The bucket of the group that sample `i` opens. */
  ghost predicate BucketAt(ms: seq<Metric>, i: nat, a: Aggregate)
    requires i < |ms|
  {
    var stats := GroupStats(ms, RawKey(ms[i]));
    stats.Some? && a == RawAggregate(ms[i]).(stats := stats.value)
  }

  lemma {:induction false} GroupExists(ms: seq<Metric>, key: string)
    ensures GroupStats(ms, key).Some? <==> exists i :: 0 <= i < |ms| && IsRaw(ms[i]) && RawKey(ms[i]) == key
    ensures GroupStats(ms, key).Some? <==> key in FoldRaw(ms)
  {
    hide RawKey, IsRaw;
    if ms != [] {
      var front, m := ms[..|ms| - 1], ms[|ms| - 1];
      GroupExists(front, key);
      assert forall i :: 0 <= i < |front| ==> front[i] == ms[i];
    }
  }

  /** Each group is opened by one sample and has one bucket. */
  lemma {:induction false} GroupBucket(ms: seq<Metric>, i: nat)
    requires i < |ms| && Opens(ms, i)
    ensures RawKey(ms[i]) in FoldRaw(ms) && BucketAt(ms, i, FoldRaw(ms)[RawKey(ms[i])])
    decreases |ms|
  {
    hide RawKey, IsRaw;
    var front, m := ms[..|ms| - 1], ms[|ms| - 1];
    if i < |front| {
      GroupBucket(front, i);
    } else {
      GroupExists(front, RawKey(m));
    }
  }

  lemma {:induction false} BucketOpened(ms: seq<Metric>, key: string) returns (i: nat)
    requires key in FoldRaw(ms)
    ensures i < |ms| && Opens(ms, i) && RawKey(ms[i]) == key
    decreases |ms|
  {
    hide RawKey, IsRaw;
    var front, m := ms[..|ms| - 1], ms[|ms| - 1];
    if key in FoldRaw(front) {
      i := BucketOpened(front, key);
    } else {
      i := |front|;
      GroupExists(front, key);
    }
  }

  /** The texts in which statistics are kept. */
  ghost predicate SameTexts(s: Stats, t: Stats) {
    && FormatFloat(s.sum) == FormatFloat(t.sum) && s.count == t.count
    && FormatFloat(s.min) == FormatFloat(t.min) && FormatFloat(s.max) == FormatFloat(t.max)
  }

  /** Two groups of raw samples with one name and five minutes, whose labels differ in metadata
      alone, whose statistics read alike in millionths, but whose averages differ. */
  ghost predicate Clash(ms: seq<Metric>) {
    exists i, j :: 0 <= i < |ms| && 0 <= j < |ms| && Opens(ms, i) && Opens(ms, j) && Clashing(ms, i, j)
  }

  ghost predicate Clashing(ms: seq<Metric>, i: nat, j: nat)
    requires i < |ms| && j < |ms|
  {
    && ms[i].name == ms[j].name
    && RoundTo5Minutes(ms[i].timestamp) == RoundTo5Minutes(ms[j].timestamp)
    && WithoutMetadata(ms[i].labels) == WithoutMetadata(ms[j].labels)
    && var s, t := GroupStats(ms, RawKey(ms[i])), GroupStats(ms, RawKey(ms[j]));
       s.Some? && t.Some? && SameTexts(s.value, t.value) && Average(s.value) != Average(t.value)
  }

  lemma SameMetadata(s: Stats, t: Stats)
    ensures MetadataLabels("5m", s) == MetadataLabels("5m", t) <==> SameTexts(s, t)
  {
    hide FormatFloat, Digits;
    var x, y := MetadataLabels("5m", s), MetadataLabels("5m", t);
    if s.count != t.count && Digits(s.count) == Digits(t.count) { DigitsInjective(s.count, t.count); }
    assert x[SUM] == FormatFloat(s.sum) && x[COUNT] == Digits(s.count) && x[MIN] == FormatFloat(s.min) && x[MAX] == FormatFloat(s.max);
    assert y[SUM] == FormatFloat(t.sum) && y[COUNT] == Digits(t.count) && y[MIN] == FormatFloat(t.min) && y[MAX] == FormatFloat(t.max);
  }

  lemma SameLabels(l: Labels, n: Labels, x: Labels, y: Labels)
    requires x.Keys == y.Keys == {RESOLUTION, SUM, COUNT, MIN, MAX}
    ensures l + x == n + y <==> WithoutMetadata(l) == WithoutMetadata(n) && x == y
  {
    if l + x == n + y {
      assert WithoutMetadata(l) == WithoutMetadata(l + x) && WithoutMetadata(n) == WithoutMetadata(n + y);
      forall k | k in x ensures x[k] == y[k] { assert (l + x)[k] == (n + y)[k]; }
    }
    if WithoutMetadata(l) == WithoutMetadata(n) && x == y {
      forall k ensures (k in l + x <==> k in n + y) && (k in l + x ==> (l + x)[k] == (n + y)[k]) {
        assert k !in x ==> (k in WithoutMetadata(l) <==> k in l) && (k in WithoutMetadata(n) <==> k in n);
      }
    }
  }

  /** Two five-minute aggregates that are written alike with different averages. */
  lemma WrittenAlike(a: Aggregate, b: Aggregate)
    requires a.resolution == b.resolution == "5m"
    ensures SameIdentity(ToMetric(a), ToMetric(b)) && ToMetric(a) != ToMetric(b) <==>
              && a.name == b.name && a.timestamp == b.timestamp && WithoutMetadata(a.labels) == WithoutMetadata(b.labels)
              && SameTexts(a.stats, b.stats) && Average(a.stats) != Average(b.stats)
  {
    hide FormatFloat, Digits, Average, SameTexts;
    SameMetadata(a.stats, b.stats);
    SameLabels(a.labels, b.labels, MetadataLabels("5m", a.stats), MetadataLabels("5m", b.stats));
  }

  lemma {:induction false} ClashExactly(ms: seq<Metric>)
    ensures Clash(ms) <==> !Unambiguous(FoldRaw(ms))
  {
    hide RawKey, IsRaw, FoldRaw, GroupStats, Opens, ToMetric, WithoutMetadata, SameTexts, Average, SameIdentity;
    var b := FoldRaw(ms);
    if Clash(ms) {
      var i, j :| 0 <= i < |ms| && 0 <= j < |ms| && Opens(ms, i) && Opens(ms, j) && Clashing(ms, i, j);
      GroupBucket(ms, i);
      GroupBucket(ms, j);
      WrittenAlike(b[RawKey(ms[i])], b[RawKey(ms[j])]);
      EncodesKey(b, RawKey(ms[i]));
      EncodesKey(b, RawKey(ms[j]));
    }
    if !Unambiguous(b) {
      var m, n :| Encodes(b, m) && Encodes(b, n) && SameIdentity(m, n) && m != n;
      var x :| x in b && m == ToMetric(b[x]);
      var y :| y in b && n == ToMetric(b[y]);
      var i := BucketOpened(ms, x);
      var j := BucketOpened(ms, y);
      GroupBucket(ms, i);
      GroupBucket(ms, j);
      WrittenAlike(b[x], b[y]);
      assert Clashing(ms, i, j);
    }
  }

  /** With a key that separates the metrics at hand, a second run of `Compact5m` changes nothing
      in whatever order the buckets are visited, exactly when no two groups of samples in the
      window clash. */
  lemma {:induction false} RawTwiceExactly(hash: Hash, db: B.Db, start: int, end: int)
    requires B.Keyed(hash, db) && Separates(hash, db, RawBucketsOf(db, start, end))
    ensures SecondRunChangesNothing(hash, db, start, end) <==> !Clash(Select(B.All(db), Window(start, end)))
  {
    hide SecondRunChangesNothing, Unambiguous, Separates, B.Keyed, Clash, Select;
    RawTwiceByBuckets(hash, db, start, end);
    ClashExactly(Select(B.All(db), Window(start, end)));
  }

  /* ---- the appending store is not idempotent ---- */

  lemma {:induction false} FoldRawSkips(ms: seq<Metric>, out: seq<Metric>)
    requires forall i :: 0 <= i < |out| ==> !IsRaw(out[i])
    ensures FoldRaw(ms + out) == FoldRaw(ms)
    decreases |out|
  {
    if out == [] {
      assert ms + out == ms;
    } else {
      assert (ms + out)[..|ms + out| - 1] == ms + out[..|out| - 1];
      FoldRawSkips(ms, out[..|out| - 1]);
    }
  }

  lemma {:induction false} SelectKeeps(out: seq<Metric>, req: QueryRequest)
    requires forall i :: 0 <= i < |out| ==> !IsRaw(out[i])
    ensures forall i :: 0 <= i < |Select(out, req)| ==> !IsRaw(Select(out, req)[i])
  {
    if out != [] { SelectKeeps(out[..|out| - 1], req); }
  }

  lemma {:induction false} NothingFolded(ms: seq<Metric>)
    ensures FoldRaw(ms) == map[] <==> forall i :: 0 <= i < |ms| ==> !IsRaw(ms[i])
  {
    hide RawKey, IsRaw;
    if ms != [] { NothingFolded(ms[..|ms| - 1]); }
  }

  lemma {:induction false} NoHoursFolded(ms: seq<Metric>)
    ensures FoldFive(ms) == map[] <==> forall i :: 0 <= i < |ms| ==> AsFive(ms[i]) == None
  {
    hide FiveKey, AsFive;
    if ms != [] { NoHoursFolded(ms[..|ms| - 1]); }
  }

  /** A metric is selected by a window exactly when it stands in it. */
  lemma InWindow(ms: seq<Metric>, start: int, end: int, m: Metric)
    ensures m in Select(ms, Window(start, end)) <==> m in ms && start <= m.timestamp <= end
  {
    SelectCounts(ms, Window(start, end), m);
    assert m in multiset(Select(ms, Window(start, end))) <==> m in Select(ms, Window(start, end));
    assert m in multiset(ms) <==> m in ms;
  }

  lemma {:induction false} NoRawIn(ms: seq<Metric>, start: int, end: int)
    ensures FoldRaw(Select(ms, Window(start, end))) == map[] <==> forall m :: m in ms && start <= m.timestamp <= end ==> !IsRaw(m)
  {
    hide Select, FoldRaw, IsRaw;
    NothingFolded(Select(ms, Window(start, end)));
    forall m ensures m in Select(ms, Window(start, end)) <==> m in ms && start <= m.timestamp <= end { InWindow(ms, start, end, m); }
  }

  lemma {:induction false} NoFiveIn(ms: seq<Metric>, start: int, end: int)
    ensures FoldFive(Select(ms, Window(start, end))) == map[] <==> forall m :: m in ms && start <= m.timestamp <= end ==> AsFive(m) == None
  {
    hide Select, FoldFive, AsFive;
    NoHoursFolded(Select(ms, Window(start, end)));
    forall m ensures m in Select(ms, Window(start, end)) <==> m in ms && start <= m.timestamp <= end { InWindow(ms, start, end, m); }
  }

  /** On the appending store the second run folds the same buckets and appends them again, so
      it changes nothing exactly when no raw sample stands in the window. */
  lemma {:induction false} AppendingTwice(ms: seq<Metric>, start: int, end: int, out: seq<Metric>, again: seq<Metric>)
    requires Lists(out, FoldRaw(Select(ms, Window(start, end))))
    requires Lists(again, FoldRaw(Select(ms + out, Window(start, end))))
    ensures Lists(again, FoldRaw(Select(ms, Window(start, end))))
    ensures ms + out + again == ms + out <==> forall m :: m in ms && start <= m.timestamp <= end ==> !IsRaw(m)
  {
    hide Select, FoldRaw, Listing, Resolution, Identified;
    var req := Window(start, end);
    var b := FoldRaw(Select(ms, req));
    RawBuckets(Select(ms, req));
    ListedResolution(out, b, "5m");
    SelectAppend(ms, out, req);
    SelectKeeps(out, req);
    FoldRawSkips(Select(ms, req), Select(out, req));
    var ls :| Listing(ls, again, b);
    SomethingListed(ls, again, b);
    NoRawIn(ms, start, end);
  }

  lemma {:induction false} FoldFiveIgnores(ms: seq<Metric>, out: seq<Metric>)
    requires forall i :: 0 <= i < |out| ==> Resolution(out[i]) != "5m"
    ensures FoldFive(ms + out) == FoldFive(ms)
    decreases |out|
  {
    hide AsFive;
    if out == [] {
      assert ms + out == ms;
    } else {
      assert (ms + out)[..|ms + out| - 1] == ms + out[..|out| - 1];
      DecodedPlain(out[|out| - 1]);
      FoldFiveIgnores(ms, out[..|out| - 1]);
    }
  }

  lemma {:induction false} SelectNoFive(out: seq<Metric>, req: QueryRequest)
    requires forall i :: 0 <= i < |out| ==> Resolution(out[i]) != "5m"
    ensures forall i :: 0 <= i < |Select(out, req)| ==> Resolution(Select(out, req)[i]) != "5m"
  {
    hide Matches, Resolution;
    if out != [] { SelectNoFive(out[..|out| - 1], req); }
  }

  /** The same for `Compact1h`: exactly when no metric in the window decodes as a five-minute
      aggregate. */
  lemma {:induction false} AppendingHoursTwice(ms: seq<Metric>, start: int, end: int, out: seq<Metric>, again: seq<Metric>)
    requires Lists(out, FoldFive(Select(ms, Window(start, end))))
    requires Lists(again, FoldFive(Select(ms + out, Window(start, end))))
    ensures Lists(again, FoldFive(Select(ms, Window(start, end))))
    ensures ms + out + again == ms + out <==> forall m :: m in ms && start <= m.timestamp <= end ==> AsFive(m) == None
  {
    hide Select, FoldFive, Listing, Resolution, AsFive, Identified;
    NoFiveIn(ms, start, end);
    var req := Window(start, end);
    var b := FoldFive(Select(ms, req));
    FiveBuckets(Select(ms, req));
    ListedResolution(out, b, "1h");
    SelectAppend(ms, out, req);
    SelectNoFive(out, req);
    FoldFiveIgnores(Select(ms, req), Select(out, req));
    var ls :| Listing(ls, again, b);
    SomethingListed(ls, again, b);
  }

  lemma SomethingListed(ls: seq<string>, out: seq<Metric>, b: Buckets)
    requires Listing(ls, out, b)
    ensures |out| == 0 <==> b == map[]
  {
    EnumeratedKeys(ls, b);
    if |out| == 0 { assert b.Keys == {}; }
    if |out| > 0 { assert ls[0] in b; }
  }
}
