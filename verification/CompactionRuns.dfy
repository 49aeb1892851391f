/**
 Runs of `CompactAndCleanup` (pkg/compaction/compactor.go) interleaved with writes, as a
 state machine whose steps are the storage operations.  Samples and five-minute aggregates
 are numbered in order of arrival, so that a deletion can be traced to one of them.
 */
module CompactionRuns {
  import opened Collections
  import opened Instants
  import opened Integers
  import opened Options
  import opened Strings
  import opened Metrics
  import opened MemoryStorage
  import opened Aggregates
  import opened Compactor
  import CompactionLaws
  import KeyedCompaction

  /** Samples arrive at most this late, and runs start at most this far apart. */
  const SLACK := 6 * HOUR

  /** Where a run stands.  `earlier` are the five-minute aggregates that were folded into
      hours before the run began. */
  datatype Phase =
    | Idle
    | Queried5m(now: int, earlier: set<nat>, batch: set<nat>)
    | Written5m(now: int, earlier: set<nat>, batch: set<nat>)
    | RawDeleted(now: int, earlier: set<nat>)
    | Queried1h(now: int, earlier: set<nat>, batch: set<nat>)
    | Written1h(now: int, earlier: set<nat>)

  datatype State = State(
    clock: int,
    lastRun: int,              // when the last completed run began
    raw: map<nat, Metric>,     // raw samples in the store
    arrived: nat,              // raw samples ever written
    folded: set<nat>,          // raw samples folded into five-minute aggregates that were written
    counted: nat,              // total Count of the five-minute aggregates ever written
    again: nat,                // times a sample was folded that had been folded before
    five: map<nat, Metric>,    // five-minute aggregates in the store
    written: nat,              // five-minute aggregates ever written
    foldedFive: set<nat>,      // five-minute aggregates folded into hourly ones that were written
    hours: seq<Metric>,
    phase: Phase)

  predicate Within(t: int, start: int, end: int) { start <= t <= end }

  /** `order` lists the set `ids`, as a query returns it. */
  predicate Orders(order: seq<nat>, ids: set<nat>) {
    && (forall i, j :: 0 <= i < j < |order| ==> order[i] != order[j])
    && (forall i :: 0 <= i < |order| ==> order[i] in ids)
    && |order| == |ids|
  }

  function Pick(m: map<nat, Metric>, order: seq<nat>): (r: seq<Metric>)
    requires forall i :: 0 <= i < |order| ==> order[i] in m
    ensures |r| == |order|
  {
    seq(|order|, i requires 0 <= i < |order| => m[order[i]])
  }

  /** The metrics of `out` numbered from `first` on. */
  function Numbered(out: seq<Metric>, first: nat): (r: map<nat, Metric>)
    ensures forall i :: i in r <==> first <= i < first + |out|
    ensures forall i :: i in r ==> r[i] == out[i - first]
  {
    if out == [] then map[] else Numbered(out[..|out| - 1], first)[first + |out| - 1 := out[|out| - 1]]
  }

  /* ---- steps ---- */

  ghost predicate Ingest(s: State, t: State) {
    exists m :: Ingests(s, t, m)
  }

  ghost predicate Ingests(s: State, t: State, m: Metric) {
    && IsRaw(m) && m.timestamp >= s.clock - SLACK
    && s.arrived + 1 < TWO64
    && t == s.(raw := s.raw[s.arrived := m], arrived := s.arrived + 1)
  }

  ghost predicate Tick(s: State, t: State) {
    t.clock >= s.clock && t == s.(clock := t.clock)
  }

  ghost predicate Begin(s: State, t: State) {
    && s.phase.Idle? && s.clock <= s.lastRun + SLACK
    && var now := s.clock;
       var batch := set i | i in s.raw && Within(s.raw[i].timestamp, now - COMPACT_5M_LOOKBACK, now - COMPACT_5M_DELAY);
       t == s.(phase := Queried5m(now, s.foldedFive, batch))
  }

  ghost predicate Write5m(s: State, t: State) {
    s.phase.Queried5m? && exists order, ks, out :: Writes5m(s, t, order, ks, out)
  }

  ghost predicate Writes5m(s: State, t: State, order: seq<nat>, ks: seq<string>, out: seq<Metric>)
    requires s.phase.Queried5m?
  {
    var p := s.phase;
    && Orders(order, p.batch) && (forall i :: 0 <= i < |order| ==> order[i] in s.raw)
    && var b := FoldRaw(Pick(s.raw, order));
       && Listing(ks, out, b) && (forall i :: 0 <= i < |ks| ==> ks[i] in b)
       && t == s.(five := s.five + Numbered(out, s.written),
                  written := s.written + |out|,
                  folded := s.folded + p.batch,
                  counted := s.counted + CompactionLaws.CountSum(ks, b),
                  again := s.again + |p.batch * s.folded|,
                  phase := Written5m(p.now, p.earlier, p.batch))
  }

  function Left(ms: map<nat, Metric>, before: int, resolution: Option<string>): map<nat, Metric> {
    map i | i in ms && Stays(ms[i], before, resolution) :: ms[i]
  }

  /** What the store's deletion leaves of all it holds. */
  function Deleted(s: State, before: int, resolution: Option<string>): State {
    s.(raw := Left(s.raw, before, resolution), five := Left(s.five, before, resolution),
       hours := Remaining(s.hours, before, resolution))
  }

  ghost predicate DeleteRaw(s: State, t: State) {
    && s.phase.Written5m?
    && t == Deleted(s, s.phase.now - RAW_RETENTION, Some("")).(phase := RawDeleted(s.phase.now, s.phase.earlier))
  }

  ghost predicate Query1h(s: State, t: State) {
    && s.phase.RawDeleted?
    && var now := s.phase.now;
       var batch := set i | i in s.five && Within(s.five[i].timestamp, now - COMPACT_1H_LOOKBACK, now - COMPACT_1H_DELAY);
       t == s.(phase := Queried1h(now, s.phase.earlier, batch))
  }

  ghost predicate Write1h(s: State, t: State) {
    s.phase.Queried1h? && exists order, out :: Writes1h(s, t, order, out)
  }

  ghost predicate Writes1h(s: State, t: State, order: seq<nat>, out: seq<Metric>)
    requires s.phase.Queried1h?
  {
    var p := s.phase;
    && Orders(order, p.batch) && (forall i :: 0 <= i < |order| ==> order[i] in s.five)
    && Lists(out, FoldFive(Pick(s.five, order)))
    && t == s.(hours := s.hours + out,
               foldedFive := s.foldedFive + (set i | i in p.batch && i in s.five && AsFive(s.five[i]).Some?),
               phase := Written1h(p.now, p.earlier))
  }

  ghost predicate Delete5m(s: State, t: State) {
    && s.phase.Written1h?
    && t == Deleted(s, s.phase.now - FIVE_RETENTION, Some("5m")).(lastRun := s.phase.now, phase := Idle)
  }

  /** A storage operation fails and the run gives up; what it did stays done. */
  ghost predicate Abort(s: State, t: State) {
    !s.phase.Idle? && t == s.(phase := Idle)
  }

  ghost predicate Next(s: State, t: State) {
    || Ingest(s, t) || Tick(s, t) || Begin(s, t) || Write5m(s, t) || DeleteRaw(s, t)
    || Query1h(s, t) || Write1h(s, t) || Delete5m(s, t) || Abort(s, t)
  }

  /** At the start no raw sample is older than six hours and nothing was folded. */
  ghost predicate Init(s: State) {
    && s.phase.Idle? && s.lastRun == s.clock
    && s.arrived < TWO64
    && (forall i: nat :: i in s.raw <==> i < s.arrived)
    && (forall i :: i in s.raw ==> IsRaw(s.raw[i]) && s.raw[i].timestamp >= s.clock - SLACK)
    && s.folded == {} && s.counted == 0 && s.again == 0
    && s.five == map[] && s.written == 0 && s.foldedFive == {} && s.hours == []
  }

  /* ---- the invariant ---- */

  /** Samples: each is present or folded, and none present is older than the last run's
      retention. */
  ghost predicate RawInv(s: State) {
    && s.arrived < TWO64
    && (forall i :: i in s.raw ==> i < s.arrived && IsRaw(s.raw[i]) && s.raw[i].timestamp >= s.lastRun - SLACK)
    && (forall i :: i in s.folded ==> i < s.arrived)
    && (forall i: nat :: i < s.arrived ==> i in s.raw || i in s.folded)
  }

  ghost predicate IsFive(m: Metric) { AsFive(m).Some? && Resolution(m) == "5m" }

  /** Aggregates: each is present or folded, and none unfolded is due for hourly folding. */
  ghost predicate FiveInv(s: State) {
    && (forall i :: i in s.five ==> i < s.written && IsFive(s.five[i]))
    && (forall i: nat :: i < s.written ==> i in s.five || i in s.foldedFive)
    && (forall i :: i in s.five && i !in s.foldedFive ==> s.five[i].timestamp > s.lastRun - COMPACT_1H_DELAY)
  }

  ghost predicate PhaseInv(s: State) {
    var p := s.phase;
    match p
    case Idle => true
    case Queried5m(now, earlier, batch) =>
      && earlier == s.foldedFive
      && (forall i :: i in batch ==> i in s.raw && Within(s.raw[i].timestamp, now - COMPACT_5M_LOOKBACK, now - COMPACT_5M_DELAY))
      && (forall i :: i in s.raw && s.raw[i].timestamp < now - RAW_RETENTION ==> i in batch)
    case Written5m(now, earlier, batch) =>
      && earlier == s.foldedFive
      && batch <= s.folded
      && (forall i :: i in batch ==> i in s.raw && s.raw[i].timestamp <= now - RAW_RETENTION)
      && (forall i :: i in s.raw && s.raw[i].timestamp < now - RAW_RETENTION ==> i in batch)
    case RawDeleted(now, earlier) =>
      && earlier == s.foldedFive
      && (forall i :: i in s.raw ==> s.raw[i].timestamp >= now - RAW_RETENTION)
    case Queried1h(now, earlier, batch) =>
      && earlier == s.foldedFive
      && (forall i :: i in s.raw ==> s.raw[i].timestamp >= now - RAW_RETENTION)
      && (forall i :: i in batch ==> i in s.five)
      && (forall i :: i in s.five && Within(s.five[i].timestamp, now - COMPACT_1H_LOOKBACK, now - COMPACT_1H_DELAY) ==> i in batch)
    case Written1h(now, earlier) =>
      && (forall i :: i in s.raw ==> s.raw[i].timestamp >= now - RAW_RETENTION)
      && (forall i :: i in s.five && s.five[i].timestamp <= now - COMPACT_1H_DELAY ==> i in s.foldedFive)
      && (forall i :: i in s.five && s.five[i].timestamp < now - FIVE_RETENTION ==> i in earlier)
  }

  ghost predicate TimeInv(s: State) {
    && s.lastRun <= s.clock
    && (!s.phase.Idle? ==> s.lastRun <= s.phase.now <= s.lastRun + SLACK && s.phase.now <= s.clock)
  }

  ghost predicate HoursInv(s: State) { forall i :: 0 <= i < |s.hours| ==> Resolution(s.hours[i]) == "1h" }

  ghost predicate Inv(s: State) {
    && TimeInv(s) && RawInv(s) && FiveInv(s) && PhaseInv(s) && HoursInv(s)
    && s.counted == |s.folded| + s.again
  }

  lemma InitInv(s: State)
    requires Init(s)
    ensures Inv(s)
  {
  }

  /* ---- a deletion removes from one part of the store ---- */

  lemma {:induction false} OthersRemain(ms: seq<Metric>, before: int, resolution: string)
    requires forall i :: 0 <= i < |ms| ==> Resolution(ms[i]) != resolution
    ensures Remaining(ms, before, Some(resolution)) == ms
  {
    hide Resolution;
    if ms != [] { OthersRemain(ms[..|ms| - 1], before, resolution); }
  }

  lemma OthersLeft(ms: map<nat, Metric>, before: int, resolution: string)
    requires forall i :: i in ms ==> Resolution(ms[i]) != resolution
    ensures Left(ms, before, Some(resolution)) == ms
  {
    hide Resolution;
  }

  lemma OwnLeft(ms: map<nat, Metric>, before: int, resolution: string)
    requires forall i :: i in ms ==> Resolution(ms[i]) == resolution
    ensures Left(ms, before, Some(resolution)) == map i | i in ms && ms[i].timestamp >= before :: ms[i]
  {
    hide Resolution;
  }

  /** What the parts of the store hold. */
  lemma PartResolutions(s: State)
    requires Inv(s)
    ensures forall i :: i in s.raw ==> Resolution(s.raw[i]) == ""
    ensures forall i :: i in s.five ==> Resolution(s.five[i]) == "5m"
    ensures forall i :: 0 <= i < |s.hours| ==> Resolution(s.hours[i]) == "1h"
  {
    hide Resolution, AsFive, PhaseInv, TimeInv;
  }

  ghost predicate RemovesRaw(s: State, t: State) {
    && s.phase.Written5m?
    && t == s.(raw := map i | i in s.raw && s.raw[i].timestamp >= s.phase.now - RAW_RETENTION :: s.raw[i],
               phase := RawDeleted(s.phase.now, s.phase.earlier))
  }

  ghost predicate RemovesFive(s: State, t: State) {
    && s.phase.Written1h?
    && t == s.(five := map i | i in s.five && s.five[i].timestamp >= s.phase.now - FIVE_RETENTION :: s.five[i],
               lastRun := s.phase.now,
               phase := Idle)
  }

  /** The store's deletion of raw samples before a cutoff takes away exactly those, and no aggregate. */
  lemma RawDeletionIs(s: State, t: State)
    requires Inv(s)
    ensures DeleteRaw(s, t) <==> RemovesRaw(s, t)
  {
    hide Resolution, Remaining, Left;
    PartResolutions(s);
    hide Inv;
    if s.phase.Written5m? {
      var before := s.phase.now - RAW_RETENTION;
      OthersLeft(s.five, before, "");
      OthersRemain(s.hours, before, "");
      OwnLeft(s.raw, before, "");
    }
  }

  /** The deletion of five-minute aggregates takes away no raw sample and no hourly aggregate. */
  lemma FiveDeletionIs(s: State, t: State)
    requires Inv(s)
    ensures Delete5m(s, t) <==> RemovesFive(s, t)
  {
    hide Resolution, Remaining, Left;
    PartResolutions(s);
    hide Inv;
    if s.phase.Written1h? {
      var before := s.phase.now - FIVE_RETENTION;
      OthersLeft(s.raw, before, "5m");
      OthersRemain(s.hours, before, "5m");
      OwnLeft(s.five, before, "5m");
    }
  }

  /* ---- the five-minute aggregates of a batch ---- */

  lemma {:induction false} FoldRawBuckets(ms: seq<Metric>, low: int)
    requires forall i :: 0 <= i < |ms| ==> IsRaw(ms[i]) && ms[i].timestamp >= low
    ensures forall k :: k in FoldRaw(ms) ==>
              && FoldRaw(ms)[k].resolution == "5m" && FoldRaw(ms)[k].stats.count <= |ms|
              && FoldRaw(ms)[k].timestamp > low - FIVE_MINUTES
    decreases |ms|
  {
    hide RawKey;
    if ms != [] { FoldRawBuckets(ms[..|ms| - 1], low); }
  }

  lemma EncodedIsFive(a: Aggregate)
    requires a.resolution == "5m" && a.stats.count < TWO64
    ensures IsFive(ToMetric(a)) && ToMetric(a).timestamp == a.timestamp
  {
    MetadataIsInternal();
    DecodeEncode(a);
  }

  lemma {:induction false} ListedAreFive(ms: seq<Metric>, ks: seq<string>, out: seq<Metric>, low: int)
    requires forall i :: 0 <= i < |ms| ==> IsRaw(ms[i]) && ms[i].timestamp >= low
    requires |ms| < TWO64 && Listing(ks, out, FoldRaw(ms))
    ensures forall i :: 0 <= i < |out| ==> IsFive(out[i]) && out[i].timestamp > low - FIVE_MINUTES
  {
    hide IsFive, ToMetric, FoldRaw;
    var b := FoldRaw(ms);
    EnumeratedKeys(ks, b);
    FoldRawBuckets(ms, low);
    forall i | 0 <= i < |out| ensures IsFive(out[i]) && out[i].timestamp > low - FIVE_MINUTES {
      MetricsOfAt(ks, b, i);
      EncodedIsFive(b[ks[i]]);
    }
  }

  /* ---- every step keeps the invariant ---- */

  lemma FiveUnchanged(s: State, t: State)
    requires FiveInv(s) && t.five == s.five && t.written == s.written && t.foldedFive == s.foldedFive && t.lastRun == s.lastRun
    ensures FiveInv(t)
  {
    hide IsFive;
  }

  lemma IngestKeeps(s: State, t: State)
    requires Inv(s) && Ingest(s, t)
    ensures Inv(t)
  {
    hide FiveInv, IsRaw;
    FiveUnchanged(s, t);
    var m :| Ingests(s, t, m);
  }

  lemma TickKeeps(s: State, t: State)
    requires Inv(s) && Tick(s, t)
    ensures Inv(t)
  {
    hide FiveInv, IsRaw;
    FiveUnchanged(s, t);
  }

  /** What the query misses: nothing that the run may delete. */
  lemma BeginKeeps(s: State, t: State)
    requires Inv(s) && Begin(s, t)
    ensures Inv(t)
  {
    var now := s.clock;
    assert forall i :: i in s.raw && s.raw[i].timestamp < now - RAW_RETENTION ==> i in t.phase.batch;
  }

  lemma BatchSize(s: State)
    requires RawInv(s) && s.phase.Queried5m? && forall i :: i in s.phase.batch ==> i in s.raw
    ensures |s.phase.batch| < TWO64
  {
    SubsetSize(s.phase.batch, Below(s.arrived));
  }

  /** The numbers below `n`. */
  function Below(n: nat): (r: set<nat>)
    ensures |r| == n && forall i: nat :: i in r <==> i < n
  {
    if n == 0 then {} else Below(n - 1) + {n - 1}
  }

  lemma UnionSize(a: set<nat>, b: set<nat>)
    ensures |a + b| + |a * b| == |a| + |b|
  {
    assert a + b == a + (b - a) && b == (b - a) + a * b;
  }

  lemma {:induction false} Write5mKeeps(s: State, t: State)
    requires Inv(s) && Write5m(s, t)
    ensures Inv(t)
  {
    hide RawInv, PhaseInv, FiveInv, IsFive, Listing, FoldRaw;
    var order, ks, out :| Writes5m(s, t, order, ks, out);
    Write5mCounts(s, t, order, ks, out);
    Write5mSamples(s, t, order, ks, out);
    Write5mAggregates(s, order, ks, out);
    Write5mFive(s, t, out);
  }

  lemma Write5mSamples(s: State, t: State, order: seq<nat>, ks: seq<string>, out: seq<Metric>)
    requires Inv(s) && s.phase.Queried5m? && Writes5m(s, t, order, ks, out)
    ensures RawInv(t) && PhaseInv(t)
  {
    hide *;
    assert RawInv(t) by { SamplesKeepRaw(s, t, order, ks, out); }
    SamplesKeepPhase(s, t, order, ks, out);
  }

  lemma SamplesKeepRaw(s: State, t: State, order: seq<nat>, ks: seq<string>, out: seq<Metric>)
    requires Inv(s) && s.phase.Queried5m? && Writes5m(s, t, order, ks, out)
    ensures RawInv(t)
  {
    hide FiveInv, Listing, FoldRaw, IsRaw, CompactionLaws.CountSum, Numbered, Orders, TimeInv, Within;
  }

  lemma SamplesKeepPhase(s: State, t: State, order: seq<nat>, ks: seq<string>, out: seq<Metric>)
    requires Inv(s) && s.phase.Queried5m? && Writes5m(s, t, order, ks, out)
    ensures PhaseInv(t)
  {
    hide FiveInv, Listing, FoldRaw, IsRaw, CompactionLaws.CountSum, Numbered, Orders, TimeInv, RawInv;
  }

  lemma {:induction false} BatchIsRaw(s: State, order: seq<nat>, ks: seq<string>, out: seq<Metric>)
    requires RawInv(s) && forall i :: 0 <= i < |order| ==> order[i] in s.raw
    requires Listing(ks, out, FoldRaw(Pick(s.raw, order))) && forall i :: 0 <= i < |ks| ==> ks[i] in FoldRaw(Pick(s.raw, order))
    ensures CompactionLaws.CountSum(ks, FoldRaw(Pick(s.raw, order))) == |order|
  {
    CompactionLaws.FoldConserves(Pick(s.raw, order), ks);
  }

  lemma {:induction false} Write5mCounts(s: State, t: State, order: seq<nat>, ks: seq<string>, out: seq<Metric>)
    requires Inv(s) && s.phase.Queried5m? && Writes5m(s, t, order, ks, out)
    ensures t.counted == |t.folded| + t.again
  {
    hide FiveInv, PhaseInv, Listing;
    BatchIsRaw(s, order, ks, out);
    UnionSize(s.folded, s.phase.batch);
    assert s.folded * s.phase.batch == s.phase.batch * s.folded;
  }

  lemma {:induction false} Write5mAggregates(s: State, order: seq<nat>, ks: seq<string>, out: seq<Metric>)
    requires Inv(s) && s.phase.Queried5m? && Orders(order, s.phase.batch)
    requires forall i :: 0 <= i < |order| ==> order[i] in s.raw
    requires Listing(ks, out, FoldRaw(Pick(s.raw, order)))
    ensures forall i :: 0 <= i < |out| ==> IsFive(out[i]) && out[i].timestamp > s.phase.now - COMPACT_5M_LOOKBACK - FIVE_MINUTES
  {
    hide IsFive, FoldRaw, Listing;
    BatchSize(s);
    ListedAreFive(Pick(s.raw, order), ks, out, s.phase.now - COMPACT_5M_LOOKBACK);
  }

  lemma Write5mFive(s: State, t: State, out: seq<Metric>)
    requires FiveInv(s) && TimeInv(s) && s.phase.Queried5m?
    requires t.five == s.five + Numbered(out, s.written) && t.written == s.written + |out|
    requires t.foldedFive == s.foldedFive && t.lastRun == s.lastRun
    requires forall i :: 0 <= i < |out| ==> IsFive(out[i]) && out[i].timestamp > s.phase.now - COMPACT_5M_LOOKBACK - FIVE_MINUTES
    ensures FiveInv(t)
  {
    hide IsFive;
  }

  lemma DeleteRawKeeps(s: State, t: State)
    requires Inv(s) && DeleteRaw(s, t)
    ensures Inv(t)
  {
    hide *;
    RawDeletionIs(s, t);
    RawRemovalKeeps(s, t);
  }

  lemma RawRemovalKeeps(s: State, t: State)
    requires Inv(s) && RemovesRaw(s, t)
    ensures Inv(t)
  {
    hide Resolution, AsFive;
  }

  lemma Query1hKeeps(s: State, t: State)
    requires Inv(s) && Query1h(s, t)
    ensures Inv(t)
  {
    hide FiveInv, IsRaw;
    FiveUnchanged(s, t);
  }

  lemma Write1hKeeps(s: State, t: State)
    requires Inv(s) && Write1h(s, t)
    ensures Inv(t)
  {
    hide IsFive, IsRaw, Orders, Lists, FoldFive;
    var order, out :| Writes1h(s, t, order, out);
    Write1hFolds(s, t, order, out);
    WrittenHours(out, Pick(s.five, order));
  }

  lemma WrittenHours(out: seq<Metric>, ms: seq<Metric>)
    requires Lists(out, FoldFive(ms))
    ensures forall i :: 0 <= i < |out| ==> Resolution(out[i]) == "1h"
  {
    hide Lists, FoldFive, Resolution, KeyedCompaction.Identified, KeyedCompaction.PlainBuckets;
    KeyedCompaction.FiveBuckets(ms);
    KeyedCompaction.ListedResolution(out, FoldFive(ms), "1h");
  }

  /** Every five-minute aggregate old enough for hourly folding has been folded. */
  ghost predicate DueIsFolded(t: State, now: int) {
    forall i :: i in t.five && t.five[i].timestamp <= now - COMPACT_1H_DELAY ==> i in t.foldedFive
  }

  lemma Write1hFolds(s: State, t: State, order: seq<nat>, out: seq<Metric>)
    requires FiveInv(s) && PhaseInv(s) && TimeInv(s) && s.phase.Queried1h? && Writes1h(s, t, order, out)
    ensures DueIsFolded(t, s.phase.now)
  {
    hide IsRaw, AsFive, Orders, Lists, FoldFive;
    var now := s.phase.now;
    forall i | i in s.five && s.five[i].timestamp <= now - COMPACT_1H_DELAY ensures i in t.foldedFive {
      if i !in s.foldedFive {
        assert s.five[i].timestamp > s.lastRun - COMPACT_1H_DELAY;
        assert Within(s.five[i].timestamp, now - COMPACT_1H_LOOKBACK, now - COMPACT_1H_DELAY);
        assert IsFive(s.five[i]);
      }
    }
  }

  lemma Delete5mKeeps(s: State, t: State)
    requires Inv(s) && Delete5m(s, t)
    ensures Inv(t)
  {
    hide *;
    FiveDeletionIs(s, t);
    FiveRemovalKeeps(s, t);
  }

  lemma FiveRemovalKeeps(s: State, t: State)
    requires Inv(s) && RemovesFive(s, t)
    ensures Inv(t)
  {
    hide AsFive, Resolution;
  }

  lemma AbortKeeps(s: State, t: State)
    requires Inv(s) && Abort(s, t)
    ensures Inv(t)
  {
  }

  /** Every step of every run keeps the invariant. */
  lemma {:induction false} NextKeeps(s: State, t: State)
    requires Inv(s) && Next(s, t)
    ensures Inv(t)
  {
    hide Inv, Ingest, Tick, Begin, Write5m, DeleteRaw, Query1h, Write1h, Delete5m, Abort;
    if Ingest(s, t) { IngestKeeps(s, t); }
    else if Tick(s, t) { TickKeeps(s, t); }
    else if Begin(s, t) { BeginKeeps(s, t); }
    else if Write5m(s, t) { Write5mKeeps(s, t); }
    else if DeleteRaw(s, t) { DeleteRawKeeps(s, t); }
    else if Query1h(s, t) { Query1hKeeps(s, t); }
    else if Write1h(s, t) { Write1hKeeps(s, t); }
    else if Delete5m(s, t) { Delete5mKeeps(s, t); }
    else { AbortKeeps(s, t); }
  }

  ghost predicate Run(run: seq<State>) {
    && run != [] && Init(run[0])
    && forall i :: 0 <= i < |run| - 1 ==> Next(run[i], run[i + 1])
  }

  lemma {:induction false} RunKeeps(run: seq<State>, n: nat)
    requires Run(run) && n < |run|
    ensures Inv(run[n])
    decreases n
  {
    hide Inv, Next, Init;
    if n == 0 {
      InitInv(run[0]);
    } else {
      RunKeeps(run, n - 1);
      NextKeeps(run[n - 1], run[n]);
    }
  }

  /* ---- no data is lost ---- */

  /** In every run, a raw sample that a step removes was folded into a five-minute aggregate
      that had been written, and a five-minute aggregate that a step removes had been folded
      into a written hourly aggregate before the removing run began; no step removes an hourly
      aggregate. */
  lemma DeletionsAreSafe(run: seq<State>, n: nat)
    requires Run(run) && n + 1 < |run|
    ensures var s, t := run[n], run[n + 1];
            && (forall i :: i in s.raw && i !in t.raw ==> i in s.folded)
            && (forall i :: i in s.five && i !in t.five ==> s.phase.Written1h? && i in s.phase.earlier)
            && s.hours <= t.hours
  {
    RunKeeps(run, n);
    StepDeletes(run[n], run[n + 1]);
  }

  lemma StepDeletes(s: State, t: State)
    requires Inv(s) && Next(s, t)
    ensures forall i :: i in s.raw && i !in t.raw ==> i in s.folded
    ensures forall i :: i in s.five && i !in t.five ==> s.phase.Written1h? && i in s.phase.earlier
    ensures s.hours <= t.hours
  {
    hide IsFive, IsRaw, FiveInv, RawInv, TimeInv, Next;
    RawDeletionIs(s, t);
    FiveDeletionIs(s, t);
    hide DeleteRaw, Delete5m;
    if !DeleteRaw(s, t) && !Delete5m(s, t) { OthersDeleteNothing(s, t); }
  }

  lemma OthersDeleteNothing(s: State, t: State)
    requires Next(s, t) && !DeleteRaw(s, t) && !Delete5m(s, t)
    ensures forall i :: i in s.raw ==> i in t.raw
    ensures forall i :: i in s.five ==> i in t.five
    ensures s.hours <= t.hours
  {
    hide IsRaw, Orders, Listing, Lists, FoldRaw, FoldFive, AsFive, Begin, Query1h, DeleteRaw, Delete5m;
    if Ingest(s, t) { var m :| Ingests(s, t, m); }
    else if Begin(s, t) || Query1h(s, t) { PhaseSteps(s, t); }
    else if Write5m(s, t) { var order, ks, out :| Writes5m(s, t, order, ks, out); }
    else if Write1h(s, t) { var order, out :| Writes1h(s, t, order, out); }
  }

  /* ---- conservation ---- */

  lemma PresentOrFolded(s: State)
    requires Inv(s)
    ensures |s.raw.Keys| + |s.folded| == s.arrived + |s.raw.Keys * s.folded|
  {
    assert s.raw.Keys + s.folded == Below(s.arrived);
    UnionSize(s.raw.Keys, s.folded);
  }

  /** Samples written = samples present + counts of all five-minute aggregates written. */
  ghost predicate Balanced(s: State) { s.arrived == |s.raw.Keys| + s.counted }

  lemma BalancedExactly(s: State)
    requires Inv(s)
    ensures Balanced(s) <==> s.raw.Keys * s.folded == {} && s.again == 0
  {
    PresentOrFolded(s);
    var both := s.raw.Keys * s.folded;
    assert |both| == 0 <==> both == {};
  }

  /** A step after which a sample that was folded is still there: the deletion leaves a sample
      of the batch that stands exactly on the cutoff, or the run gives up between writing the
      aggregates of a batch and deleting its samples. */
  ghost predicate Spoils(s: State, t: State) {
    s.phase.Written5m? &&
    ((t.phase.Idle? && s.phase.batch != {}) || (t.phase.RawDeleted? && LeavesCutoff(s)))
  }

  ghost predicate LeavesCutoff(s: State)
    requires s.phase.Written5m?
  {
    exists i :: i in s.phase.batch && i in s.raw && s.raw[i].timestamp == s.phase.now - RAW_RETENTION
  }

  /** No sample was folded twice, and folded ones are gone but for the batch about to be deleted. */
  ghost predicate Clean(s: State) {
    s.again == 0 && forall i :: i in s.raw && i in s.folded ==> InBatch(s, i)
  }

  ghost predicate InBatch(s: State, i: nat) { s.phase.Written5m? && i in s.phase.batch }

  /** A step that neither folds nor deletes samples. */
  ghost predicate Bystander(s: State, t: State) {
    && t.folded == s.folded && t.again == s.again
    && (forall i :: i in s.raw ==> i in t.raw)
    && (forall i :: i in t.raw && i !in s.raw ==> i == s.arrived)
    && (forall i :: InBatch(t, i) ==> InBatch(s, i))
    && (s.phase.Written5m? ==> t.phase == s.phase || t.phase.Idle?)
  }

  ghost predicate Folds(s: State, t: State) {
    && s.phase.Queried5m? && t.phase.Written5m? && t.phase.batch == s.phase.batch
    && t.raw == s.raw && t.folded == s.folded + s.phase.batch && t.again == s.again + |s.phase.batch * s.folded|
  }

  lemma SampleSteps(s: State, t: State)
    requires Next(s, t) && !DeleteRaw(s, t) && forall i :: i in s.raw ==> IsRaw(s.raw[i])
    ensures Folds(s, t) || Bystander(s, t)
  {
    hide Orders, Listing, Lists, FoldRaw, FoldFive, AsFive, DeleteRaw, Begin, Query1h, Delete5m, Resolution;
    if Delete5m(s, t) { DeletionPasses(s, t); }
    else if Ingest(s, t) { var m :| Ingests(s, t, m); }
    else if Begin(s, t) || Query1h(s, t) { PhaseSteps(s, t); }
    else if Write5m(s, t) { var order, ks, out :| Writes5m(s, t, order, ks, out); }
    else if Write1h(s, t) { var order, out :| Writes1h(s, t, order, out); }
  }

  lemma AllRaw(s: State)
    requires Inv(s)
    ensures forall i :: i in s.raw ==> IsRaw(s.raw[i])
  {
    hide FiveInv, PhaseInv, IsRaw;
  }

  lemma DeletionPasses(s: State, t: State)
    requires Delete5m(s, t) && forall i :: i in s.raw ==> IsRaw(s.raw[i])
    ensures Bystander(s, t)
  {
    hide Resolution;
    OthersLeft(s.raw, s.phase.now - FIVE_RETENTION, "5m");
  }

  lemma PhaseSteps(s: State, t: State)
    requires Begin(s, t) || Query1h(s, t)
    ensures t == s.(phase := t.phase) && !s.phase.Written5m? && !t.phase.Written5m?
  {
  }

  lemma CleanStays(s: State, t: State)
    requires Inv(s) && Clean(s) && Next(s, t) && !Spoils(s, t)
    ensures Clean(t)
  {
    hide IsFive, IsRaw, FiveInv, TimeInv, Next, Bystander, Folds;
    if DeleteRaw(s, t) {
      DeletionStaysClean(s, t);
    } else {
      AllRaw(s);
      SampleSteps(s, t);
      if Folds(s, t) { FoldingStaysClean(s, t); } else { BystanderStaysClean(s, t); }
    }
  }

  lemma DeletionStaysClean(s: State, t: State)
    requires Inv(s) && Clean(s) && DeleteRaw(s, t) && !Spoils(s, t)
    ensures Clean(t)
  {
    RawDeletionIs(s, t);
    hide DeleteRaw, Resolution, FiveInv;
  }

  lemma FoldingStaysClean(s: State, t: State)
    requires Inv(s) && Clean(s) && Folds(s, t)
    ensures Clean(t)
  {
    hide FiveInv, RawInv, TimeInv, IsRaw;
    assert s.phase.batch * s.folded == {};
  }

  lemma BystanderStaysClean(s: State, t: State)
    requires RawInv(s) && Clean(s) && Bystander(s, t) && !Spoils(s, t)
    ensures Clean(t)
  {
    hide IsRaw;
  }

  /** What was folded and kept is folded again before it can be deleted, so the balance is
      never restored. */
  lemma UncleanStays(s: State, t: State)
    requires Inv(s) && !Clean(s) && Next(s, t)
    ensures !Clean(t)
  {
    hide IsFive, FiveInv, IsRaw, RawInv, PhaseInv, TimeInv, Next, Stays;
    if s.again == 0 {
      var i :| i in s.raw && i in s.folded && !InBatch(s, i);
      KeptStays(s, t, i);
    } else if !DeleteRaw(s, t) {
      AllRaw(s);
      SampleSteps(s, t);
    }
  }

  lemma KeptStays(s: State, t: State, i: nat)
    requires Inv(s) && Next(s, t) && i in s.raw && i in s.folded && !InBatch(s, i)
    ensures t.again > 0 || (i in t.raw && i in t.folded && !InBatch(t, i))
  {
    hide IsFive, FiveInv, IsRaw, Next;
    if !DeleteRaw(s, t) {
      AllRaw(s);
      SampleSteps(s, t);
      if Folds(s, t) && i in s.phase.batch { assert i in s.phase.batch * s.folded; }
    }
  }

  /** A sample of the batch is there after a step that spoils the balance. */
  lemma SpoiltIsUnclean(s: State, t: State)
    requires Inv(s) && Next(s, t) && Spoils(s, t)
    ensures !Clean(t)
  {
    hide IsFive, FiveInv, IsRaw, Next, TimeInv, RawInv, Clean;
    if DeleteRaw(s, t) {
      var i :| i in s.phase.batch && i in s.raw && s.raw[i].timestamp == s.phase.now - RAW_RETENTION;
      Unclean(t, i);
    } else {
      hide Stays;
      AllRaw(s);
      SampleSteps(s, t);
      var i :| i in s.phase.batch;
      Unclean(t, i);
    }
  }

  lemma Unclean(s: State, i: nat)
    requires i in s.raw && i in s.folded && !InBatch(s, i)
    ensures !Clean(s)
  {
  }

  /** Some step before state `n` spoilt the balance. */
  ghost predicate SpoiltBefore(run: seq<State>, n: nat)
    requires n < |run|
  {
    exists k: nat :: k < n && Spoils(run[k], run[k + 1])
  }

  lemma {:induction false} CleanExactly(run: seq<State>, n: nat)
    requires Run(run) && n < |run|
    ensures Clean(run[n]) <==> !SpoiltBefore(run, n)
    decreases n
  {
    hide Inv, Clean, Init, Next, Spoils;
    if n == 0 {
      CleanInit(run[0]);
    } else {
      CleanExactly(run, n - 1);
      RunKeeps(run, n - 1);
      var s, t := run[n - 1], run[n];
      assert Next(s, run[n - 1 + 1]);
      if Clean(s) && !Spoils(s, t) { CleanStays(s, t); }
      if !Clean(s) { UncleanStays(s, t); }
      if Spoils(s, t) { SpoiltIsUnclean(s, t); assert Spoils(run[n - 1], run[n - 1 + 1]); }
    }
  }

  lemma CleanInit(s: State)
    requires Init(s)
    ensures Clean(s)
  {
  }

  lemma CleanBalances(s: State)
    requires Inv(s)
    ensures Balanced(s) <==> Clean(s) && !(s.phase.Written5m? && s.phase.batch != {})
  {
    hide FiveInv, TimeInv, RawInv, IsRaw;
    BalancedExactly(s);
    var both := s.raw.Keys * s.folded;
    assert forall i :: i in both <==> i in s.raw && i in s.folded;
    assert s.phase.Written5m? ==> forall i :: i in s.phase.batch ==> i in both;
    assert both != {} ==> exists i :: i in both;
  }

  /** In every run the balance holds at state `n` exactly when no earlier deletion left a sample
      of its batch on the cutoff, no run gave up between writing the aggregates of some samples
      and deleting them, and no run stands at that point at the moment. */
  lemma {:induction false} Conservation(run: seq<State>, n: nat)
    requires Run(run) && n < |run|
    ensures var p := run[n].phase;
            Balanced(run[n]) <==> !SpoiltBefore(run, n) && !(p.Written5m? && p.batch != {})
  {
    hide Inv, Balanced, Clean, Run, SpoiltBefore;
    RunKeeps(run, n);
    CleanExactly(run, n);
    CleanBalances(run[n]);
  }

  /** A sample exactly on the cutoff is inside the query window but not before the cutoff: it
      stays, and the balance is lost for the rest of the run. */
  lemma CutoffSampleCountsTwice(run: seq<State>, n: nat, i: nat, m: nat)
    requires Run(run) && n < m < |run| && DeleteRaw(run[n], run[n + 1])
    requires i in run[n].phase.batch && i in run[n].raw && run[n].raw[i].timestamp == run[n].phase.now - RAW_RETENTION
    ensures !Balanced(run[m])
  {
    hide Run, Balanced;
    assert Spoils(run[n], run[n + 1]);
    Conservation(run, m);
  }

  /* ---- runs exist ---- */

  ghost predicate Steps(run: seq<State>) {
    run != [] && forall i :: 0 <= i < |run| - 1 ==> Next(run[i], run[i + 1])
  }

  lemma {:induction false} OrderOf(ids: set<nat>) returns (order: seq<nat>)
    ensures Orders(order, ids)
  {
    order := [];
    var left := ids;
    while left != {}
      invariant left <= ids && |order| + |left| == |ids|
      invariant forall i, j :: 0 <= i < j < |order| ==> order[i] != order[j]
      invariant forall i :: 0 <= i < |order| ==> order[i] in ids && order[i] !in left
      decreases |left|
    {
      var i: nat :| i in left;
      order, left := order + [i], left - {i};
    }
  }

  lemma OrderedIn(order: seq<nat>, ids: set<nat>, ms: map<nat, Metric>)
    requires Orders(order, ids) && forall i :: i in ids ==> i in ms
    ensures forall i :: 0 <= i < |order| ==> order[i] in ms
  {
  }

  /** A run can write what it queried, whatever is in the store. */
  lemma WriteFive(s: State) returns (t: State)
    requires s.phase.Queried5m? && forall i :: i in s.phase.batch ==> i in s.raw
    ensures Write5m(s, t) && t.phase == Written5m(s.phase.now, s.phase.earlier, s.phase.batch)
    ensures t.raw == s.raw && t.clock == s.clock
  {
    hide FoldRaw, Listing, Orders, Pick, Writes5m;
    var order := OrderOf(s.phase.batch);
    OrderedIn(order, s.phase.batch, s.raw);
    var b := FoldRaw(Pick(s.raw, order));
    var ks := Sorted(b.Keys);
    var out := SomeListing(ks, b);
    t := WriteListed(s, order, ks, out);
  }

  lemma WriteListed(s: State, order: seq<nat>, ks: seq<string>, out: seq<Metric>) returns (t: State)
    requires s.phase.Queried5m? && Orders(order, s.phase.batch) && forall i :: 0 <= i < |order| ==> order[i] in s.raw
    requires var b := FoldRaw(Pick(s.raw, order)); Listing(ks, out, b) && forall i :: 0 <= i < |ks| ==> ks[i] in b
    ensures Writes5m(s, t, order, ks, out) && t.phase == Written5m(s.phase.now, s.phase.earlier, s.phase.batch)
    ensures t.raw == s.raw && t.clock == s.clock
  {
    hide FoldRaw, Listing, Orders, Pick, Numbered, CompactionLaws.CountSum;
    var p := s.phase;
    t := s.(five := s.five + Numbered(out, s.written), written := s.written + |out|, folded := s.folded + p.batch,
            counted := s.counted + CompactionLaws.CountSum(ks, FoldRaw(Pick(s.raw, order))),
            again := s.again + |p.batch * s.folded|,
            phase := Written5m(p.now, p.earlier, p.batch));
  }

  lemma SomeListing(ks: seq<string>, b: Buckets) returns (out: seq<Metric>)
    requires ks == Sorted(b.Keys)
    ensures Listing(ks, out, b) && forall i :: 0 <= i < |ks| ==> ks[i] in b
  {
    CompactionLaws.SortedEnumerates(b);
    EnumeratedKeys(ks, b);
    out := MetricsOf(ks, b);
  }

  lemma WriteHours(s: State) returns (t: State)
    requires s.phase.Queried1h? && forall i :: i in s.phase.batch ==> i in s.five
    ensures Write1h(s, t) && t.phase == Written1h(s.phase.now, s.phase.earlier) && t.clock == s.clock
  {
    hide FoldFive, Lists, AsFive, Orders;
    var p := s.phase;
    var order := OrderOf(p.batch);
    OrderedIn(order, p.batch, s.five);
    var out := SomeHours(FoldFive(Pick(s.five, order)));
    t := s.(hours := s.hours + out,
            foldedFive := s.foldedFive + (set i | i in p.batch && i in s.five && AsFive(s.five[i]).Some?),
            phase := Written1h(p.now, p.earlier));
    assert Writes1h(s, t, order, out);
  }

  lemma SomeHours(b: Buckets) returns (out: seq<Metric>)
    ensures Lists(out, b)
  {
    hide Listing;
    out := SomeListing(Sorted(b.Keys), b);
  }

  lemma Begins(s: State) returns (t: State)
    requires s.phase.Idle? && s.clock <= s.lastRun + SLACK
    ensures Begin(s, t) && t.phase.Queried5m? && t.phase.now == s.clock == t.clock && t.raw == s.raw && t.written == s.written
    ensures forall i :: i in t.phase.batch <==>
              i in s.raw && Within(s.raw[i].timestamp, s.clock - COMPACT_5M_LOOKBACK, s.clock - COMPACT_5M_DELAY)
  {
    var now := s.clock;
    t := s.(phase := Queried5m(now, s.foldedFive,
              set i | i in s.raw && Within(s.raw[i].timestamp, now - COMPACT_5M_LOOKBACK, now - COMPACT_5M_DELAY)));
  }

  lemma DeletesRaw(s: State) returns (t: State)
    requires s.phase.Written5m?
    ensures DeleteRaw(s, t) && t.phase == RawDeleted(s.phase.now, s.phase.earlier) && t.clock == s.clock
  {
    t := Deleted(s, s.phase.now - RAW_RETENTION, Some("")).(phase := RawDeleted(s.phase.now, s.phase.earlier));
  }

  lemma QueriesHours(s: State) returns (t: State)
    requires s.phase.RawDeleted?
    ensures Query1h(s, t) && t.phase.Queried1h? && t.phase.now == s.phase.now && t.clock == s.clock
    ensures forall i :: i in t.phase.batch ==> i in t.five
  {
    var now := s.phase.now;
    t := s.(phase := Queried1h(now, s.phase.earlier,
              set i | i in s.five && Within(s.five[i].timestamp, now - COMPACT_1H_LOOKBACK, now - COMPACT_1H_DELAY)));
  }

  lemma DeletesFive(s: State) returns (t: State)
    requires s.phase.Written1h?
    ensures Delete5m(s, t) && t.phase.Idle? && t.clock == s.clock && t.lastRun == s.phase.now
  {
    t := Deleted(s, s.phase.now - FIVE_RETENTION, Some("5m")).(lastRun := s.phase.now, phase := Idle);
  }

  /** The first half of a run: the samples are folded and deleted. */
  lemma SampleHalf(s: State) returns (s1: State, s2: State, s3: State)
    requires Inv(s) && s.phase.Idle? && s.clock <= s.lastRun + SLACK
    ensures Begin(s, s1) && Write5m(s1, s2) && DeleteRaw(s2, s3) && Inv(s3)
    ensures s1.phase.Queried5m? && s1.written == s.written && s2.raw == s.raw && s3.clock == s.clock
    ensures s3.phase.RawDeleted? && s3.phase.now == s.clock
    ensures s2.phase.Written5m? && s2.phase.now == s.clock && s2.phase.batch == s1.phase.batch
    ensures forall i :: i in s1.phase.batch <==>
              i in s.raw && Within(s.raw[i].timestamp, s.clock - COMPACT_5M_LOOKBACK, s.clock - COMPACT_5M_DELAY)
  {
    hide Inv, Begin, Write5m, DeleteRaw;
    s1 := Begins(s);
    BeginKeeps(s, s1);
    s2 := WriteFive(s1);
    Write5mKeeps(s1, s2);
    s3 := DeletesRaw(s2);
    DeleteRawKeeps(s2, s3);
  }

  /** The second half: the aggregates are folded and deleted. */
  lemma AggregateHalf(s: State) returns (s4: State, s5: State, s6: State)
    requires Inv(s) && s.phase.RawDeleted?
    ensures Query1h(s, s4) && Write1h(s4, s5) && Delete5m(s5, s6) && Inv(s5) && Inv(s6)
    ensures s6.phase.Idle? && s6.clock == s.clock && s6.lastRun == s.phase.now
  {
    hide Inv, Query1h, Write1h, Delete5m;
    s4 := QueriesHours(s);
    Query1hKeeps(s, s4);
    s5 := WriteHours(s4);
    Write1hKeeps(s4, s5);
    s6 := DeletesFive(s5);
    Delete5mKeeps(s5, s6);
  }

  /** From every idle state whose last run is at most six hours old, a whole run can follow. */
  lemma WholeRun(s: State) returns (run: seq<State>)
    requires Inv(s) && s.phase.Idle? && s.clock <= s.lastRun + SLACK
    ensures Steps(run) && |run| == 7 && run[0] == s
    ensures Begin(run[0], run[1]) && Write5m(run[1], run[2]) && DeleteRaw(run[2], run[3])
    ensures Query1h(run[3], run[4]) && Write1h(run[4], run[5]) && Delete5m(run[5], run[6])
    ensures Inv(run[6]) && Retained(run[6]) && run[6].phase.Idle? && run[6].clock == run[6].lastRun == s.clock
    ensures run[1].phase.Queried5m? && run[1].written == s.written && run[2].raw == s.raw
    ensures run[2].phase.Written5m? && run[2].phase.now == s.clock && run[2].phase.batch == run[1].phase.batch
    ensures forall i :: i in run[1].phase.batch <==>
              i in s.raw && Within(s.raw[i].timestamp, s.clock - COMPACT_5M_LOOKBACK, s.clock - COMPACT_5M_DELAY)
  {
    hide Inv, Begin, Write5m, DeleteRaw, Query1h, Write1h, Delete5m, Ingest, Tick, Abort, Retained, Within;
    var s1, s2, s3 := SampleHalf(s);
    var s4, s5, s6 := AggregateHalf(s3);
    DeletionRetains(s5, s6);
    run := [s, s1, s2, s3, s4, s5, s6];
  }

  lemma StepsJoin(a: seq<State>, b: seq<State>)
    requires Steps(a) && Steps(b) && Next(a[|a| - 1], b[0])
    ensures Steps(a + b)
  {
    hide Next;
    var run := a + b;
    forall i | 0 <= i < |run| - 1 ensures Next(run[i], run[i + 1]) {
      if i < |a| - 1 { assert Next(a[i], a[i + 1]); }
      else if i >= |a| { assert Next(b[i - |a|], b[i - |a| + 1]); }
    }
  }

  /** No five-minute aggregate is older than the retention. */
  ghost predicate Retained(s: State) {
    forall i :: i in s.five ==> s.five[i].timestamp >= s.lastRun - FIVE_RETENTION
  }

  lemma DeletionRetains(s: State, t: State)
    requires Inv(s) && Delete5m(s, t)
    ensures Retained(t)
  {
    FiveDeletionIs(s, t);
    hide Delete5m, RawInv, AsFive;
  }

  /** Runs every six hours, as often as wanted. */
  lemma {:induction false} Cycles(s: State, k: nat) returns (run: seq<State>)
    requires Inv(s) && s.phase.Idle? && s.clock == s.lastRun
    ensures Steps(run) && run[0] == s
    ensures var t := run[|run| - 1]; Inv(t) && t.phase.Idle? && t.clock == t.lastRun == s.clock + k * SLACK && (k > 0 ==> Retained(t))
    decreases k
  {
    hide Inv, Next, Retained, Begin, Write5m, DeleteRaw, Query1h, Write1h, Delete5m;
    if k == 0 {
      run := [s];
    } else {
      var first := Cycles(s, k - 1);
      var u := first[|first| - 1];
      var v := u.(clock := u.clock + SLACK);
      TickIsNext(u, v);
      TickKeeps(u, v);
      var whole := WholeRun(v);
      StepsJoin(first, whole);
      run := first + whole;
    }
  }

  lemma TickIsNext(s: State, t: State)
    requires t == s.(clock := t.clock) && t.clock >= s.clock
    ensures Tick(s, t) && Next(s, t)
  {
  }

  /** A store with one raw sample. */
  function Start(m: Metric): State {
    State(0, 0, map[0 := m], 1, {}, 0, 0, map[], 0, {}, [], Idle)
  }

  /** A sample and, six hours after the start, the first run. */
  lemma FirstRun(m: Metric) returns (run: seq<State>)
    requires IsRaw(m) && -SLACK <= m.timestamp <= 0
    ensures Run(run) && |run| == 8 && run[0] == Start(m)
    ensures Write5m(run[2], run[3]) && DeleteRaw(run[3], run[4])
    ensures run[3].raw == map[0 := m] && 0 in run[3].phase.batch && run[3].phase.now == SLACK
    ensures run[2].phase.Queried5m? && 0 in run[2].phase.batch && run[2].written == 0
    ensures run[7].phase.Idle? && Inv(run[7]) && run[7].clock == run[7].lastRun
  {
    hide Inv, Init, Next, Begin, Write5m, DeleteRaw, Query1h, Write1h, Delete5m, Retained;
    var s := Start(m);
    var v := s.(clock := SLACK);
    Starts(m);
    InitInv(s);
    TickIsNext(s, v);
    TickKeeps(s, v);
    var whole := WholeRun(v);
    StepsJoin([s], whole);
    run := [s] + whole;
  }

  lemma Starts(m: Metric)
    requires IsRaw(m) && -SLACK <= m.timestamp <= 0
    ensures Init(Start(m))
  {
  }

  /** Raw samples are deleted in some run, so that the safety of deletions says something. */
  lemma RawDeletionHappens(m: Metric) returns (run: seq<State>)
    requires IsRaw(m) && -SLACK <= m.timestamp < 0
    ensures Run(run) && |run| > 4 && 0 in run[3].raw && 0 !in run[4].raw
  {
    hide Run, Inv, Write5m;
    run := FirstRun(m);
  }

  /** A sample on the cutoff happens, and the balance is lost for the rest of the run. */
  lemma CutoffHappens(m: Metric) returns (run: seq<State>)
    requires IsRaw(m) && m.timestamp == 0
    ensures Run(run) && |run| == 8 && run[7].phase.Idle? && forall n :: 4 <= n < |run| ==> !Balanced(run[n])
  {
    hide Balanced, Inv, Write5m;
    run := FirstRun(m);
    forall n | 4 <= n < |run| ensures !Balanced(run[n]) { CutoffSampleCountsTwice(run, 3, 0, n); }
  }

  lemma SomethingWritten(s: State, t: State)
    requires Inv(s) && Write5m(s, t) && s.phase.batch != {}
    ensures t.written > s.written && s.written in t.five
  {
    hide FiveInv, PhaseInv, TimeInv, Listing, FoldRaw, IsRaw;
    var order, ks, out :| Writes5m(s, t, order, ks, out);
    BatchIsRaw(s, order, ks, out);
    ListedOnce(ks, out, FoldRaw(Pick(s.raw, order)));
  }

  lemma ListedOnce(ks: seq<string>, out: seq<Metric>, b: Buckets)
    requires Listing(ks, out, b) && forall i :: 0 <= i < |ks| ==> ks[i] in b
    ensures |out| == |ks|
    ensures CompactionLaws.CountSum(ks, b) > 0 ==> |ks| > 0
  {
  }

  lemma {:induction false} RunJoins(run: seq<State>, more: seq<State>)
    requires Run(run) && Steps(more) && run[|run| - 1] == more[0]
    ensures Run(run + more[1..])
  {
    hide Next, Init;
    if |more| > 1 {
      assert Steps(more[1..]) by {
        forall i | 0 <= i < |more[1..]| - 1 ensures Next(more[1..][i], more[1..][i + 1]) { assert Next(more[i + 1], more[i + 1 + 1]); }
      }
      assert Next(more[0], more[0 + 1]);
      StepsJoin(run, more[1..]);
    } else {
      assert run + more[1..] == run;
    }
  }

  lemma FiveKept(s: State, t: State, i: nat)
    requires Inv(s) && Next(s, t) && i in s.five
    ensures i in t.five ==> t.five[i] == s.five[i]
  {
    hide RawInv, PhaseInv, IsFive, IsRaw, Orders, Listing, Lists, FoldRaw, FoldFive, AsFive, Begin, Query1h, DeleteRaw, Delete5m, TimeInv;
    if Ingest(s, t) { var m :| Ingests(s, t, m); }
    else if Begin(s, t) || Query1h(s, t) { PhaseSteps(s, t); }
    else if DeleteRaw(s, t) || Delete5m(s, t) { DeletionKeepsFive(s, t, i); }
    else if Write5m(s, t) { var order, ks, out :| Writes5m(s, t, order, ks, out); }
    else if Write1h(s, t) { var order, out :| Writes1h(s, t, order, out); }
  }

  lemma DeletionKeepsFive(s: State, t: State, i: nat)
    requires (DeleteRaw(s, t) || Delete5m(s, t)) && i in s.five
    ensures i in t.five ==> t.five[i] == s.five[i]
  {
    hide Stays;
  }

  /** Where an aggregate that is too old at state `b` was deleted. */
  lemma {:induction false} DeletedBetween(run: seq<State>, i: nat, a: nat, b: nat) returns (n: nat)
    requires Run(run) && a <= b < |run| && i in run[a].five
    requires Retained(run[b]) && run[a].five[i].timestamp < run[b].lastRun - FIVE_RETENTION
    ensures a <= n < b && i in run[n].five && i !in run[n + 1].five
    decreases b - a
  {
    hide Inv, Init, Next;
    assert a < b;
    RunKeeps(run, a);
    assert Next(run[a], run[a + 1]);
    FiveKept(run[a], run[a + 1], i);
    if i in run[a + 1].five { n := DeletedBetween(run, i, a + 1, b); } else { n := a; }
  }

  /** Five-minute aggregates are deleted in some run, too, once enough runs have followed. */
  lemma FiveDeletionHappens(m: Metric) returns (run: seq<State>, n: nat)
    requires IsRaw(m) && -SLACK <= m.timestamp <= 0
    ensures Run(run) && n + 1 < |run| && 0 in run[n].five && 0 !in run[n + 1].five
  {
    hide Inv, Run, Write5m, DeleteRaw, Next, Retained;
    var first := FirstRun(m);
    RunKeeps(first, 2);
    SomethingWritten(first[2], first[3]);
    var age := first[3].five[0].timestamp + FIVE_RETENTION - first[7].clock;
    var k: nat := 1 + if age < 0 then 0 else age;
    var more := Cycles(first[7], k);
    RunJoins(first, more);
    run := first + more[1..];
    var last := |run| - 1;
    assert run[last] == more[|more| - 1];
    n := DeletedBetween(run, 0, 3, last);
  }
}
