/**
 From stored metrics to series (pkg/query/executor.go): a selector queries the store, groups
 what it returns by labels and sorts each group by time, which is what `rate` works on.
 */
module Selection {
  import opened Strings
  import opened SeriesKeys
  import opened Metrics
  import opened Rates
  import opened Collections
  import opened Tokens
  import opened Ast
  import opened MemoryStorage
  import opened Options
  import B = BadgerStorage

  datatype RawSeries = RawSeries(labels: Labels, samples: seq<Sample>)

  datatype RateSeriesResult = RateSeriesResult(labels: Labels, rates: seq<RatePoint>)

  type SeriesMap = map<string, RawSeries>

  function SampleOf(m: Metric): Sample { Sample(m.timestamp, m.value) }

  /** The samples of a label set, in order. */
  function SamplesOf(ms: seq<Metric>, labels: Labels): seq<Sample> {
    if ms == [] then []
    else
      var rest, m := SamplesOf(ms[..|ms| - 1], labels), ms[|ms| - 1];
      if m.labels == labels then rest + [SampleOf(m)] else rest
  }

  /** `seriesKey` of the executor. */
  method LabelKeyString(labels: Labels) returns (key: string)
    ensures key == LabelKey(labels)
  {
    hide Heads;
    SortedKeys(labels);
    var keys := SortedList(labels.Keys);
    key := "";
    NoHeads(labels);
    for i := 0 to |keys|
      invariant key == Heads(keys[..i], labels)
    {
      HeadsAppend(keys[..i], keys[i], labels);
      assert keys[..i + 1] == keys[..i] + [keys[i]];
      key := key + keys[i] + "=" + labels[keys[i]] + ",";
    }
    assert keys[..|keys|] == keys;
  }

  /** The loop that fills the series map. */
  ghost function Collected(ms: seq<Metric>): SeriesMap {
    if ms == [] then map[]
    else
      var m := ms[|ms| - 1];
      Extended(Collected(ms[..|ms| - 1]), LabelKey(m.labels), m)
  }

  function Extended(found: SeriesMap, key: string, m: Metric): SeriesMap {
    if key in found then found[key := RawSeries(found[key].labels, found[key].samples + [SampleOf(m)])]
    else found[key := RawSeries(m.labels, [SampleOf(m)])]
  }

  /** The loop body: a new series first if the key is new, then the sample. */
  method Extend(found: SeriesMap, key: string, m: Metric) returns (r: SeriesMap)
    ensures r == Extended(found, key, m)
  {
    r := found;
    if key !in r { r := r[key := RawSeries(m.labels, [])]; }
    r := r[key := RawSeries(r[key].labels, r[key].samples + [SampleOf(m)])];
    assert [] + [SampleOf(m)] == [SampleOf(m)];
  }

  ghost predicate PlainMetrics(ms: seq<Metric>) { forall i :: 0 <= i < |ms| ==> PlainLabels(ms[i].labels) }

  /** Grouping by key is grouping by labels: each key stands for one label set, and holds
      exactly its samples. */
  lemma {:induction false} CollectedAre(ms: seq<Metric>, labels: Labels)
    requires PlainMetrics(ms) && PlainLabels(labels)
    ensures var found, key := Collected(ms), LabelKey(labels);
            && (key in found <==> SamplesOf(ms, labels) != [])
            && (key in found ==> found[key] == RawSeries(labels, SamplesOf(ms, labels)))
  {
    hide LabelKey, PlainLabels;
    if ms != [] {
      var front, m := ms[..|ms| - 1], ms[|ms| - 1];
      assert forall i :: 0 <= i < |front| ==> front[i] == ms[i];
      CollectedAre(front, labels);
      LabelKeyInjective(m.labels, labels);
    }
  }

  /** Every key in the map comes from a metric. */
  lemma {:induction false} CollectedFrom(ms: seq<Metric>, key: string)
    requires key in Collected(ms)
    ensures exists i :: 0 <= i < |ms| && LabelKey(ms[i].labels) == key
  {
    hide LabelKey;
    var front, m := ms[..|ms| - 1], ms[|ms| - 1];
    if key in Collected(front) {
      CollectedFrom(front, key);
      var i :| 0 <= i < |front| && LabelKey(front[i].labels) == key;
      assert ms[i] == front[i];
    }
  }

  /* ---- sorting by time ---- */

  method InsertByTime(s: seq<Sample>, x: Sample) returns (r: seq<Sample>)
    requires Rates.Sorted(s)
    ensures Rates.Sorted(r) && multiset(r) == multiset(s) + multiset{x}
  {
    var i := 0;
    while i < |s| && s[i].time <= x.time
      invariant 0 <= i <= |s| && forall j :: 0 <= j < i ==> s[j].time <= x.time
    {
      i := i + 1;
    }
    r := s[..i] + [x] + s[i..];
    InsertedMultiset(s, i, x);
  }

  lemma InsertedMultiset(s: seq<Sample>, i: nat, x: Sample)
    requires i <= |s|
    ensures multiset(s[..i] + [x] + s[i..]) == multiset(s) + multiset{x}
  {
    assert s == s[..i] + s[i..];
  }

  /** `sort.Slice` by time; the order of equal instants is up to the sort. */
  method SortByTime(s: seq<Sample>) returns (r: seq<Sample>)
    ensures Rates.Sorted(r) && multiset(r) == multiset(s)
  {
    hide Rates.Sorted;
    r := [];
    NothingSorted();
    for i := 0 to |s|
      invariant Rates.Sorted(r) && multiset(r) == multiset(s[..i])
    {
      r := InsertByTime(r, s[i]);
      assert s[..i + 1] == s[..i] + [s[i]];
    }
    assert s[..|s|] == s;
  }

  lemma NothingSorted()
    ensures Rates.Sorted([])
  {
  }

  /* ---- the selector ---- */

  ghost predicate SortedFrom(r: RawSeries, raw: RawSeries) {
    r.labels == raw.labels && Rates.Sorted(r.samples) && multiset(r.samples) == multiset(raw.samples)
  }

  ghost predicate Lists(ks: seq<string>, series: seq<RawSeries>, found: SeriesMap) {
    && |series| == |ks|
    && (forall i, j :: 0 <= i < j < |ks| ==> ks[i] != ks[j])
    && (forall k :: k in ks <==> k in found)
    && (forall i :: 0 <= i < |ks| ==> ks[i] in found && SortedFrom(series[i], found[ks[i]]))
  }

  lemma ListedSorted(ks: seq<string>, series: seq<RawSeries>, found: SeriesMap)
    requires Lists(ks, series, found)
    ensures forall i :: 0 <= i < |series| ==> Rates.Sorted(series[i].samples)
  {
  }

  /** The series of a selector: a series for each label set, with the samples of the metrics
      that carry it, in time order. */
  ghost predicate SeriesOf(series: seq<RawSeries>, ms: seq<Metric>) {
    && (forall i, j :: 0 <= i < j < |series| ==> series[i].labels != series[j].labels)
    && (forall i :: 0 <= i < |series| ==> HoldsSamples(series[i], ms))
    && (forall j :: 0 <= j < |ms| ==> HasSeries(ms[j].labels, series))
  }

  ghost predicate HoldsSamples(s: RawSeries, ms: seq<Metric>) {
    Rates.Sorted(s.samples) && multiset(s.samples) == multiset(SamplesOf(ms, s.labels))
  }

  ghost predicate HasSeries(labels: Labels, series: seq<RawSeries>) {
    exists i :: 0 <= i < |series| && series[i].labels == labels
  }

  lemma ListedSeries(ks: seq<string>, series: seq<RawSeries>, ms: seq<Metric>, i: nat)
    requires Lists(ks, series, Collected(ms)) && PlainMetrics(ms) && i < |series|
    ensures PlainLabels(series[i].labels) && LabelKey(series[i].labels) == ks[i]
    ensures HoldsSamples(series[i], ms)
  {
    hide Collected, LabelKey, PlainLabels, Rates.Sorted, SamplesOf;
    CollectedFrom(ms, ks[i]);
    var j :| 0 <= j < |ms| && LabelKey(ms[j].labels) == ks[i];
    CollectedAre(ms, ms[j].labels);
  }

  lemma ListedKeys(ks: seq<string>, series: seq<RawSeries>, ms: seq<Metric>)
    requires Lists(ks, series, Collected(ms))
    ensures |series| == |ks| && forall i, j :: 0 <= i < j < |ks| ==> ks[i] != ks[j]
  {
    hide Collected, SortedFrom;
  }

  lemma ListedMetric(ks: seq<string>, series: seq<RawSeries>, ms: seq<Metric>, j: nat)
    requires Lists(ks, series, Collected(ms)) && PlainMetrics(ms) && j < |ms|
    ensures HasSeries(ms[j].labels, series)
  {
    hide Collected, LabelKey, PlainLabels, Rates.Sorted, SamplesOf;
    CollectedAre(ms, ms[j].labels);
    Sampled(ms, j);
    var i :| 0 <= i < |ks| && ks[i] == LabelKey(ms[j].labels);
    assert series[i].labels == ms[j].labels;
  }

  /** For separator-free labels that is what the loops return. */
  lemma SelectedSeries(ks: seq<string>, series: seq<RawSeries>, ms: seq<Metric>)
    requires Lists(ks, series, Collected(ms)) && PlainMetrics(ms)
    ensures SeriesOf(series, ms)
  {
    hide Collected, LabelKey, PlainMetrics, PlainLabels, Lists, HoldsSamples, HasSeries;
    assert |series| == |ks| && forall i, j :: 0 <= i < j < |ks| ==> ks[i] != ks[j] by { ListedKeys(ks, series, ms); }
    forall i, j | 0 <= i < j < |series| ensures series[i].labels != series[j].labels {
      ListedSeries(ks, series, ms, i);
      ListedSeries(ks, series, ms, j);
    }
    forall i | 0 <= i < |series| ensures HoldsSamples(series[i], ms) { ListedSeries(ks, series, ms, i); }
    forall j | 0 <= j < |ms| ensures HasSeries(ms[j].labels, series) { ListedMetric(ks, series, ms, j); }
  }

  /* ---- the order of the metrics plays no part ---- */

  lemma {:induction false} SamplesAppend(a: seq<Metric>, b: seq<Metric>, labels: Labels)
    ensures SamplesOf(a + b, labels) == SamplesOf(a, labels) + SamplesOf(b, labels)
    decreases |b|
  {
    if b == [] {
      assert a + b == a;
    } else {
      assert (a + b)[..|a + b| - 1] == a + b[..|b| - 1];
      SamplesAppend(a, b[..|b| - 1], labels);
    }
  }

  function Own(m: Metric, labels: Labels): seq<Sample> { if m.labels == labels then [SampleOf(m)] else [] }

  lemma SamplesWithout(y: seq<Metric>, i: nat, labels: Labels)
    requires i < |y|
    ensures multiset(SamplesOf(y, labels)) == multiset(SamplesOf(Without(y, i), labels)) + multiset(Own(y[i], labels))
  {
    hide SamplesOf, Without;
    var a, b := y[..i], y[i + 1..];
    WithoutIs(y, i);
    SamplesAppend(a + [y[i]], b, labels);
    SamplesAppend(a, [y[i]], labels);
    SamplesAppend(a, b, labels);
    OwnSample(y[i], labels);
  }

  lemma OwnSample(m: Metric, labels: Labels)
    ensures SamplesOf([m], labels) == Own(m, labels)
  {
    assert [m][..0] == [];
  }

  lemma {:induction false} SamplesPermute(x: seq<Metric>, y: seq<Metric>, labels: Labels)
    requires multiset(x) == multiset(y)
    ensures multiset(SamplesOf(x, labels)) == multiset(SamplesOf(y, labels))
    decreases |x|
  {
    hide Without, SamplesOf, Own;
    if x == [] {
      assert |multiset(y)| == 0;
      assert x == y;
    } else {
      var i := TakeOut(x, y);
      SamplesPermute(Without(x, |x| - 1), Without(y, i), labels);
      SamplesWithout(x, |x| - 1, labels);
      SamplesWithout(y, i, labels);
    }
  }

  lemma SamePlain(x: seq<Metric>, y: seq<Metric>)
    requires multiset(x) == multiset(y) && PlainMetrics(x)
    ensures PlainMetrics(y)
  {
    forall i | 0 <= i < |y| ensures PlainLabels(y[i].labels) {
      assert y[i] in multiset(x);
      var j :| 0 <= j < |x| && x[j] == y[i];
    }
  }

  /** An entry of one series map has its like in the other. */
  lemma SameEntries(x: seq<Metric>, y: seq<Metric>, k: string)
    requires multiset(x) == multiset(y) && PlainMetrics(x) && k in Collected(x)
    ensures k in Collected(y) && Collected(y)[k].labels == Collected(x)[k].labels
    ensures multiset(Collected(y)[k].samples) == multiset(Collected(x)[k].samples)
  {
    hide Collected, LabelKey, PlainLabels, SamplesOf;
    SamePlain(x, y);
    CollectedFrom(x, k);
    var i :| 0 <= i < |x| && LabelKey(x[i].labels) == k;
    var labels := x[i].labels;
    CollectedAre(x, labels);
    CollectedAre(y, labels);
    SamplesPermute(x, y, labels);
    assert |multiset(SamplesOf(x, labels))| == |SamplesOf(x, labels)| && |multiset(SamplesOf(y, labels))| == |SamplesOf(y, labels)|;
  }

  lemma SortedSame(s: RawSeries, a: RawSeries, b: RawSeries)
    requires SortedFrom(s, a) && a.labels == b.labels && multiset(a.samples) == multiset(b.samples)
    ensures SortedFrom(s, b)
  {
    hide Rates.Sorted;
  }

  lemma SameKeys(x: seq<Metric>, y: seq<Metric>, k: string)
    requires multiset(x) == multiset(y) && PlainMetrics(x)
    ensures k in Collected(x) <==> k in Collected(y)
  {
    hide Collected, PlainMetrics;
    SamePlain(x, y);
    if k in Collected(x) { SameEntries(x, y, k); }
    if k in Collected(y) { SameEntries(y, x, k); }
  }

  /** Two series maps with the same samples, in whatever order. */
  ghost predicate Alike(f: SeriesMap, g: SeriesMap) {
    && (forall k :: k in f <==> k in g)
    && (forall k :: k in f ==> f[k].labels == g[k].labels && multiset(f[k].samples) == multiset(g[k].samples))
  }

  lemma ListsAlike(ks: seq<string>, series: seq<RawSeries>, f: SeriesMap, g: SeriesMap)
    requires Lists(ks, series, f) && Alike(f, g)
    ensures Lists(ks, series, g)
  {
    hide SortedFrom;
    forall i | 0 <= i < |ks| ensures SortedFrom(series[i], g[ks[i]]) { SortedSame(series[i], f[ks[i]], g[ks[i]]); }
  }

  lemma CollectedAlike(x: seq<Metric>, y: seq<Metric>)
    requires multiset(x) == multiset(y) && PlainMetrics(x)
    ensures Alike(Collected(x), Collected(y))
  {
    hide Collected, PlainMetrics;
    forall k ensures k in Collected(x) <==> k in Collected(y) { SameKeys(x, y, k); }
    forall k | k in Collected(x)
      ensures Collected(x)[k].labels == Collected(y)[k].labels && multiset(Collected(x)[k].samples) == multiset(Collected(y)[k].samples)
    {
      SameEntries(x, y, k);
    }
  }

  /** The loops may yield the same series whatever the order of the metrics. */
  lemma SelectsPermute(series: seq<RawSeries>, x: seq<Metric>, y: seq<Metric>)
    requires multiset(x) == multiset(y) && PlainMetrics(x) && Selects(series, x)
    ensures Selects(series, y)
  {
    hide Collected, PlainMetrics, Lists, Alike;
    var ks :| Lists(ks, series, Collected(x));
    CollectedAlike(x, y);
    ListsAlike(ks, series, Collected(x), Collected(y));
  }

  lemma {:induction false} Sampled(ms: seq<Metric>, j: nat)
    requires j < |ms|
    ensures SamplesOf(ms, ms[j].labels) != []
  {
    if j < |ms| - 1 { Sampled(ms[..|ms| - 1], j); }
  }

  /* ---- the storage request ---- */

  /** The label filters of a selector: its equality matchers, the last one of a name winning. */
  function EqualLabels(matchers: seq<Matcher>): Labels {
    if matchers == [] then map[]
    else
      var rest, m := EqualLabels(matchers[..|matchers| - 1]), matchers[|matchers| - 1];
      if m.op == TokenEqual then rest[m.name := m.value] else rest
  }

  function Request(vec: Vector, start: int, end: int): QueryRequest {
    QueryRequest(start, end, [vec.name], EqualLabels(vec.matchers), 0)
  }

  /** The last equality matcher of its name. */
  ghost predicate Decides(matchers: seq<Matcher>, i: nat)
    requires i < |matchers|
  {
    && matchers[i].op == TokenEqual
    && forall j :: i < j < |matchers| ==> matchers[j].op != TokenEqual || matchers[j].name != matchers[i].name
  }

  lemma {:induction false} EqualLabelsAre(matchers: seq<Matcher>, k: string, v: string)
    ensures k in EqualLabels(matchers) && EqualLabels(matchers)[k] == v <==>
              exists i :: 0 <= i < |matchers| && Decides(matchers, i) && matchers[i].name == k && matchers[i].value == v
  {
    if matchers != [] {
      var n := |matchers| - 1;
      var front, last := matchers[..n], matchers[n];
      EqualLabelsAre(front, k, v);
      var named := last.op == TokenEqual && last.name == k;
      forall i | 0 <= i < n && matchers[i].name == k
        ensures Decides(matchers, i) <==> !named && Decides(front, i)
      {
        DecidesFront(matchers, i);
      }
      assert named ==> Decides(matchers, n);
      hide Decides;
      assert matchers == front + [last];
    }
  }

  lemma DecidesFront(matchers: seq<Matcher>, i: nat)
    requires i < |matchers| - 1
    ensures var front, last := matchers[..|matchers| - 1], matchers[|matchers| - 1];
            Decides(matchers, i) <==> !(last.op == TokenEqual && last.name == matchers[i].name) && Decides(front, i)
  {
    var n := |matchers| - 1;
    var front := matchers[..n];
    assert forall j :: 0 <= j < n ==> front[j] == matchers[j];
  }

  /** A selector asks for the metrics of its name in the window that carry the value of each
      deciding equality matcher; the other matchers play no part. */
  lemma {:induction false} RequestMatches(vec: Vector, start: int, end: int, m: Metric)
    ensures Matches(m, Request(vec, start, end)) <==>
              && start <= m.timestamp <= end && m.name == vec.name
              && forall i :: 0 <= i < |vec.matchers| && Decides(vec.matchers, i) ==>
                   m.labels != map[] && Lookup(m.labels, vec.matchers[i].name) == vec.matchers[i].value
  {
    hide EqualLabels, Decides;
    var ms, labels := vec.matchers, EqualLabels(vec.matchers);
    forall i | 0 <= i < |ms| && Decides(ms, i) ensures ms[i].name in labels && labels[ms[i].name] == ms[i].value {
      EqualLabelsAre(ms, ms[i].name, ms[i].value);
    }
    forall k | k in labels ensures exists i :: 0 <= i < |ms| && Decides(ms, i) && ms[i].name == k && ms[i].value == labels[k] {
      EqualLabelsAre(ms, k, labels[k]);
    }
  }

  /* ---- the store ---- */

  /** The store an executor queries. */
  datatype Backend = Appending(memory: Storage) | Keyed(badger: B.Storage)

  /** What a store holds. */
  datatype Contents = Appended(metrics: seq<Metric>) | Database(db: B.Db)

  function StoreOf(b: Backend): object { match b case Appending(memory) => memory case Keyed(badger) => badger }

  function ContentsOf(b: Backend): Contents
    reads StoreOf(b)
  {
    match b
    case Appending(memory) => Appended(memory.metrics)
    case Keyed(badger) => Database(badger.db)
  }

  /** The answer to a request. */
  ghost function Found(c: Contents, req: QueryRequest): seq<Metric> {
    match c
    case Appended(metrics) => Limited(Select(metrics, req), req.limit)
    case Database(db) => Limited(B.Answer(db, req), req.limit)
  }

  /** The answer, or None when the store reports an error for the request. */
  ghost function Queried(c: Contents, failing: QueryRequest -> bool, req: QueryRequest): Option<seq<Metric>> {
    if failing(req) then None else Some(Found(c, req))
  }

  method Ask(b: Backend, req: QueryRequest) returns (ms: seq<Metric>)
    ensures ms == Found(ContentsOf(b), req)
  {
    match b
    case Appending(memory) => ms := memory.Query(req);
    case Keyed(badger) => ms := badger.Query(req);
  }

  /** What a query may load: the metrics found, unless the store fails or they exceed what is left
      of the limit, and the samples counted so far. */
  ghost function Loaded(c: Contents, failing: QueryRequest -> bool, max: nat, req: QueryRequest, sofar: nat): (Option<seq<Metric>>, nat) {
    match Queried(c, failing, req)
    case None => (None, sofar)
    case Some(ms) => (if sofar + |ms| > max then None else Some(ms), sofar + |ms|)
  }

  /** A request is within the limit exactly when the store answers and the samples loaded, these
      included, are not more than it. */
  lemma LimitExactly(c: Contents, failing: QueryRequest -> bool, max: nat, req: QueryRequest, sofar: nat)
    ensures var loads := Loaded(c, failing, max, req, sofar);
            && (loads.0.Some? <==> !failing(req) && sofar + |Found(c, req)| <= max)
            && (loads.0.Some? ==> loads.0.value == Found(c, req))
            && (!failing(req) ==> loads.1 == sofar + |Found(c, req)|)
  {
    hide Found;
  }

  /** The series the loops of a selector make of the metrics found. */
  ghost predicate Selects(series: seq<RawSeries>, ms: seq<Metric>) { exists ks :: Lists(ks, series, Collected(ms)) }

  class Executor {
    const backend: Backend
    /** The requests for which the store reports an error. */
    const failing: QueryRequest -> bool
    const maxSamples: nat
    var samplesLoaded: nat

    constructor (backend: Backend, failing: QueryRequest -> bool, maxSamples: nat)
      ensures this.backend == backend && this.failing == failing && this.maxSamples == maxSamples && samplesLoaded == 0
    {
      this.backend, this.failing, this.maxSamples, samplesLoaded := backend, failing, maxSamples, 0;
    }

    ghost function Loads(req: QueryRequest): (Option<seq<Metric>>, nat)
      reads this, StoreOf(backend)
    {
      Loaded(ContentsOf(backend), failing, maxSamples, req, samplesLoaded)
    }

    /** `executeVectorSelector`; `!ok` when the store fails and beyond the limit of samples a
        query may load. */
    method ExecuteVectorSelector(vec: Vector, start: int, end: int) returns (ok: bool, series: seq<RawSeries>)
      modifies this`samplesLoaded
      ensures var loads := old(Loads(Request(vec, start, end)));
              && samplesLoaded == loads.1 && (ok <==> loads.0.Some?) && (ok ==> Selects(series, loads.0.value))
    {
      hide Lists, Collected, Found;
      var req := BuildRequest(vec, start, end);
      if failing(req) { return false, []; }
      var ms := Ask(backend, req);
      samplesLoaded := samplesLoaded + |ms|;
      if samplesLoaded > maxSamples { return false, []; }
      ok := true;
      var found := CollectSeries(ms);
      ghost var ks;
      series, ks := SortAll(found);
    }

    /** `executeRangeSelector`: a range reaches back before the start. */
    method ExecuteRangeSelector(vec: Vector, d: int, start: int, end: int) returns (ok: bool, series: seq<RawSeries>)
      modifies this`samplesLoaded
      ensures var loads := old(Loads(Request(vec, start - d, end)));
              && samplesLoaded == loads.1 && (ok <==> loads.0.Some?) && (ok ==> Selects(series, loads.0.value))
    {
      ok, series := ExecuteVectorSelector(vec, start - d, end);
    }

    /** `executeRate`: `!ok` for arguments other than a single range too. */
    method ExecuteRate(args: seq<Expr>, start: int, end: int) returns (ok: bool, results: seq<RateSeriesResult>)
      modifies this`samplesLoaded
      ensures |args| != 1 || !args[0].RangeSelector? ==> !ok && samplesLoaded == old(samplesLoaded)
      ensures |args| == 1 && args[0].RangeSelector? ==>
                var d := args[0].duration;
                var loads := old(Loads(Request(args[0].vector, start - d, end)));
                && samplesLoaded == loads.1 && (ok <==> loads.0.Some?)
                && (ok ==> exists series :: Selects(series, loads.0.value) && RatesOf(results, series, d))
    {
      hide Lists, RatesOf, Collected, Found, Request;
      if |args| != 1 || !args[0].RangeSelector? { return false, []; }
      var vec, d := args[0].vector, args[0].duration;
      ghost var loads := Loads(Request(vec, start - d, end));
      var series;
      ok, series := ExecuteRangeSelector(vec, d, start, end);
      if !ok { return false, []; }
      SelectsSorted(series, loads.0.value);
      results := RateAll(series, d);
    }
  }

  lemma SelectsSorted(series: seq<RawSeries>, ms: seq<Metric>)
    requires Selects(series, ms)
    ensures forall i :: 0 <= i < |series| ==> Rates.Sorted(series[i].samples)
  {
    hide Lists, Collected;
    var ks :| Lists(ks, series, Collected(ms));
    ListedSorted(ks, series, Collected(ms));
  }

  /** For separator-free labels a selector yields the series of the metrics found. */
  lemma SelectsSeries(series: seq<RawSeries>, ms: seq<Metric>)
    requires Selects(series, ms) && PlainMetrics(ms)
    ensures SeriesOf(series, ms)
  {
    hide Lists, Collected, PlainMetrics, SeriesOf;
    var ks :| Lists(ks, series, Collected(ms));
    SelectedSeries(ks, series, ms);
  }

  method BuildRequest(vec: Vector, start: int, end: int) returns (req: QueryRequest)
    ensures req == Request(vec, start, end)
  {
    var labels: Labels := map[];
    for i := 0 to |vec.matchers|
      invariant labels == EqualLabels(vec.matchers[..i])
    {
      var matcher := vec.matchers[i];
      assert vec.matchers[..i + 1][..i] == vec.matchers[..i];
      if matcher.op == TokenEqual { labels := labels[matcher.name := matcher.value]; }
    }
    assert vec.matchers[..|vec.matchers|] == vec.matchers;
    req := QueryRequest(start, end, [vec.name], labels, 0);
  }

  /** The loop that groups the metrics by their labels. */
  method CollectSeries(ms: seq<Metric>) returns (found: SeriesMap)
    ensures found == Collected(ms)
  {
    hide LabelKey, Extended;
    found := map[];
    for i := 0 to |ms|
      invariant found == Collected(ms[..i])
    {
      assert ms[..i + 1][..i] == ms[..i];
      var key := LabelKeyString(ms[i].labels);
      found := Extend(found, key, ms[i]);
    }
    assert ms[..|ms|] == ms;
  }

  /** The loop of `executeRate` over the series. */
  method RateAll(series: seq<RawSeries>, d: int) returns (results: seq<RateSeriesResult>)
    requires forall i :: 0 <= i < |series| ==> Rates.Sorted(series[i].samples)
    ensures RatesOf(results, series, d)
  {
    hide Rates.Sorted;
    results := [];
    for i := 0 to |series|
      invariant |results| == i
      invariant forall j :: 0 <= j < i ==> results[j] == RatesFor(series[j], d)
    {
      var rates, _ := RateSeries(series[i].samples, d);
      results := results + [RateSeriesResult(series[i].labels, rates)];
    }
  }

  function RatesFor(s: RawSeries, d: int): RateSeriesResult {
    RateSeriesResult(s.labels, NaiveRates(s.samples, |s.samples|, d))
  }

  ghost predicate RatesOf(results: seq<RateSeriesResult>, series: seq<RawSeries>, d: int) {
    |results| == |series| && forall i :: 0 <= i < |series| ==> results[i] == RatesFor(series[i], d)
  }

  /** The range loop over the series map, sorting each series. */
  method SortAll(found: SeriesMap) returns (series: seq<RawSeries>, ghost ks: seq<string>)
    ensures Lists(ks, series, found)
  {
    hide Rates.Sorted;
    series, ks := [], [];
    var left := found.Keys;
    while left != {}
      invariant left <= found.Keys && |series| == |ks|
      invariant forall i, j :: 0 <= i < j < |ks| ==> ks[i] != ks[j]
      invariant forall k :: k in ks <==> k in found && k !in left
      invariant forall i :: 0 <= i < |ks| ==> ks[i] in found && SortedFrom(series[i], found[ks[i]])
      decreases |left|
    {
      var k :| k in left;
      var samples := SortByTime(found[k].samples);
      series, ks := series + [RawSeries(found[k].labels, samples)], ks + [k];
      left := left - {k};
    }
  }
}
