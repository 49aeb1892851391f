/**
 The order of `HandleIngest` (pkg/ingest/handler.go): every metric is checked before any is
 written, and only written metrics are recorded.  The source reads the clock once for missing
 timestamps and again in every check and every record; the readings are parameters.
 */
module Ingest {
  import opened Instants
  import opened SeriesKeys
  import opened Metrics
  import opened MemoryStorage
  import opened Cardinality

  const MAX_METRICS_PER_REQUEST: nat := 1000
  const MAX_METRIC_NAME_LENGTH: nat := 256
  const MAX_LABELS_PER_METRIC: nat := 20
  const MAX_LABEL_KEY_LENGTH: nat := 256
  const MAX_LABEL_VALUE_LENGTH: nat := 1024

  /** `ValidateMetric`. */
  predicate ValidMetric(m: Metric) {
    && 0 < |m.name| <= MAX_METRIC_NAME_LENGTH
    && |m.labels| <= MAX_LABELS_PER_METRIC
    && forall k :: k in m.labels ==> |k| <= MAX_LABEL_KEY_LENGTH && |m.labels[k]| <= MAX_LABEL_VALUE_LENGTH
  }

  /** A missing timestamp is the zero time. */
  function StampedOne(m: Metric, now: int): Metric { if m.timestamp == ZERO_TIME then m.(timestamp := now) else m }

  datatype Response = TooManyMetrics | StorageFull | Invalid(index: nat) | LimitExceeded(index: nat, verdict: Verdict) | WriteFailed | Success

  datatype Checks = Checks(state: State, response: Response)

  /** The check loop from metric `i` on: each check may clean up at its own clock reading, and
      the first invalid or refused metric ends it. */
  ghost function CheckedFrom(s: State, batch: seq<Metric>, clocks: seq<int>, i: nat): Checks
    requires i <= |batch| == |clocks|
    decreases |batch| - i
  {
    if i == |batch| then Checks(s, Success)
    else if !ValidMetric(batch[i]) then Checks(s, Invalid(i))
    else
      var c := Cleaned(s, clocks[i]);
      if Judged(c, batch[i]) != Allowed then Checks(c, LimitExceeded(i, Judged(c, batch[i])))
      else CheckedFrom(c, batch, clocks, i + 1)
  }

  ghost function RecordedAll(s: State, batch: seq<Metric>, n: nat, clocks: seq<int>): State
    requires n <= |batch| == |clocks|
  {
    if n == 0 then s else Recorded(RecordedAll(s, batch, n - 1, clocks), batch[n - 1], clocks[n - 1])
  }

  function StampedAll(batch: seq<Metric>, now: int): (r: seq<Metric>)
    ensures |r| == |batch| && forall i :: 0 <= i < |r| ==> r[i] == StampedOne(batch[i], now)
  {
    if batch == [] then [] else StampedAll(batch[..|batch| - 1], now) + [StampedOne(batch[|batch| - 1], now)]
  }

  /** A request: its metrics with their timestamps filled in, the clock reading of each check
      and of each record, whether the store is full, and whether the write succeeds. */
  datatype Request = Request(batch: seq<Metric>, checks: seq<int>, records: seq<int>, full: bool, written: bool)

  type TimedRequest = r: Request | |r.checks| == |r.batch| == |r.records| witness Request([], [], [], false, false)

  /** How a request is answered. */
  ghost function Answer(s: State, r: TimedRequest): Response {
    if |r.batch| > MAX_METRICS_PER_REQUEST then TooManyMetrics
    else if r.full then StorageFull
    else
      var refusal := CheckedFrom(s, r.batch, r.checks, 0).response;
      if refusal != Success then refusal else if r.written then Success else WriteFailed
  }

  /** The tracker after a request. */
  ghost function Next(s: State, r: TimedRequest): State {
    if |r.batch| > MAX_METRICS_PER_REQUEST || r.full then s
    else
      var c := CheckedFrom(s, r.batch, r.checks, 0);
      if c.response == Success && r.written then RecordedAll(c.state, r.batch, |r.batch|, r.records) else c.state
  }

  class Handler {
    const storage: Storage
    const cardinality: Tracker

    constructor (store: Storage, now: int)
      ensures storage == store && fresh(cardinality)
      ensures cardinality.Abstract() == NewState(now)
    {
      storage := store;
      cardinality := new Tracker(now);
    }

    /** `HandleIngest` after decoding.  `full` is the storage checker's answer, `now` the clock
        reading for missing timestamps, `checks` and `records` those of the tracker.  Nothing is
        written or recorded unless every metric passes. */
    method HandleIngest(batch: array<Metric>, now: int, checks: seq<int>, records: seq<int>, full: bool) returns (r: Response)
      requires |checks| == |records| == batch.Length
      modifies batch, storage, cardinality
      ensures var stamped := StampedAll(old(batch[..]), now);
              var written := |old(storage.metrics)| + |stamped| <= storage.Capacity();
              var request := Request(stamped, checks, records, full, written);
              && r == Answer(old(cardinality.Abstract()), request)
              && cardinality.Abstract() == Next(old(cardinality.Abstract()), request)
              && storage.metrics == if r == Success then old(storage.metrics) + stamped else old(storage.metrics)
    {
      hide CheckedFrom, RecordedAll;
      if batch.Length > MAX_METRICS_PER_REQUEST { return TooManyMetrics; }
      if full { return StorageFull; }
      ghost var stamped, before := StampedAll(batch[..], now), cardinality.Abstract();
      r := CheckLoop(batch, now, checks);
      if r != Success { return; }
      assert batch[..] == stamped;
      var ok := storage.Write(batch[..]);
      if !ok { return WriteFailed; }
      RecordLoop(batch[..], records);
    }

    /** The check loop, which also fills in missing timestamps. */
    method CheckLoop(batch: array<Metric>, now: int, checks: seq<int>) returns (r: Response)
      requires |checks| == batch.Length
      modifies batch, cardinality
      ensures var stamped := StampedAll(old(batch[..]), now);
              && Checks(cardinality.Abstract(), r) == CheckedFrom(old(cardinality.Abstract()), stamped, checks, 0)
              && (r == Success ==> batch[..] == stamped)
    {
      hide Cleaned, Judged, ValidMetric;
      ghost var stamped, before := StampedAll(batch[..], now), cardinality.Abstract();
      for i := 0 to batch.Length
        invariant forall j :: 0 <= j < i ==> batch[j] == stamped[j]
        invariant forall j :: i <= j < batch.Length ==> batch[j] == old(batch[j])
        invariant CheckedFrom(before, stamped, checks, 0) == CheckedFrom(cardinality.Abstract(), stamped, checks, i)
      {
        batch[i] := StampedOne(batch[i], now);
        assert batch[i] == stamped[i];
        if !ValidMetric(batch[i]) { return Invalid(i); }
        var v := cardinality.Check(batch[i], checks[i]);
        if v != Allowed { return LimitExceeded(i, v); }
      }
      assert batch[..] == stamped;
      r := Success;
    }

    method RecordLoop(batch: seq<Metric>, records: seq<int>)
      requires |records| == |batch|
      modifies cardinality
      ensures cardinality.Abstract() == RecordedAll(old(cardinality.Abstract()), batch, |batch|, records)
    {
      hide Recorded;
      for i := 0 to |batch|
        invariant cardinality.Abstract() == RecordedAll(old(cardinality.Abstract()), batch, i, records)
      {
        cardinality.Record(batch[i], records[i]);
      }
    }
  }

  /** A timestamp that is given is kept; a missing one, the zero time of year 1, becomes the clock
      reading.  Nothing else of a metric changes. */
  lemma StampsFill(batch: seq<Metric>, now: int, i: nat)
    requires i < |batch|
    ensures batch[i].timestamp != -62_135_596_800_000_000_000 ==> StampedAll(batch, now)[i] == batch[i]
    ensures batch[i].timestamp == -62_135_596_800_000_000_000 ==> StampedAll(batch, now)[i] == batch[i].(timestamp := now)
  {
    hide StampedAll;
  }

  /** What makes a metric valid. */
  lemma ValidExactly(m: Metric)
    ensures ValidMetric(m) <==>
              && 1 <= |m.name| <= 256 && |m.labels| <= 20
              && forall k :: k in m.labels ==> |k| <= 256 && |m.labels[k]| <= 1024
  {
  }

  /** The tracker as check `i` finds it, its cleanup done. */
  ghost function StateAt(s: State, clocks: seq<int>, i: nat): State
    requires i < |clocks|
  {
    Cleaned(if i == 0 then s else StateAt(s, clocks, i - 1), clocks[i])
  }

  ghost predicate Passes(s: State, batch: seq<Metric>, clocks: seq<int>, i: nat)
    requires i < |batch| == |clocks|
  {
    ValidMetric(batch[i]) && Judged(StateAt(s, clocks, i), batch[i]) == Allowed
  }

  /** The checks from metric `i` on, in the state the checks before it have left. */
  lemma {:induction false} ChecksFrom(s: State, batch: seq<Metric>, clocks: seq<int>, i: nat)
    requires i <= |batch| == |clocks|
    ensures var r := CheckedFrom(if i == 0 then s else StateAt(s, clocks, i - 1), batch, clocks, i).response;
            && (r == Success <==> forall j :: i <= j < |batch| ==> Passes(s, batch, clocks, j))
            && (r.Invalid? ==> i <= r.index < |batch| && !ValidMetric(batch[r.index]) && forall j :: i <= j < r.index ==> Passes(s, batch, clocks, j))
            && (r.LimitExceeded? ==>
                  i <= r.index < |batch| && ValidMetric(batch[r.index]) && r.verdict == Judged(StateAt(s, clocks, r.index), batch[r.index])
                  && r.verdict != Allowed && forall j :: i <= j < r.index ==> Passes(s, batch, clocks, j))
            && (r.Success? || r.Invalid? || r.LimitExceeded?)
    decreases |batch| - i
  {
    hide Cleaned, Judged, ValidMetric;
    var before := if i == 0 then s else StateAt(s, clocks, i - 1);
    if i < |batch| {
      var c := StateAt(s, clocks, i);
      assert c == Cleaned(before, clocks[i]);
      ChecksFrom(s, batch, clocks, i + 1);
      assert Passes(s, batch, clocks, i) ==> CheckedFrom(before, batch, clocks, i) == CheckedFrom(c, batch, clocks, i + 1);
    }
  }

  /** A request is answered with success exactly when it holds at most a thousand metrics, the store is
      not full, every metric is valid and admitted, and the write succeeds; a refusal names the
      first metric that is invalid or not admitted. */
  lemma {:induction false} AnswersExactly(s: State, r: TimedRequest)
    ensures Answer(s, r) == Success <==>
              |r.batch| <= 1000 && !r.full && r.written && forall j :: 0 <= j < |r.batch| ==> Passes(s, r.batch, r.checks, j)
    ensures var a := Answer(s, r);
            && (a == TooManyMetrics <==> |r.batch| > 1000) && (a == StorageFull <==> |r.batch| <= 1000 && r.full)
            && (a.Invalid? ==> a.index < |r.batch| && !ValidMetric(r.batch[a.index]))
            && (a.LimitExceeded? ==> a.index < |r.batch| && ValidMetric(r.batch[a.index])
                                     && a.verdict == Judged(StateAt(s, r.checks, a.index), r.batch[a.index]) && a.verdict != Allowed)
            && (a.Invalid? || a.LimitExceeded? ==> forall j :: 0 <= j < a.index ==> Passes(s, r.batch, r.checks, j))
  {
    hide CheckedFrom, Passes, Judged, ValidMetric, StateAt;
    ChecksFrom(s, r.batch, r.checks, 0);
  }

  lemma {:induction false} ChecksSeeLess(s: State, batch: seq<Metric>, clocks: seq<int>, i: nat)
    requires i <= |batch| == |clocks|
    ensures CheckedFrom(s, batch, clocks, i).state.seen.Keys <= s.seen.Keys
    decreases |batch| - i
  {
    hide Judged, ValidMetric, Counted;
    if i < |batch| { ChecksSeeLess(Cleaned(s, clocks[i]), batch, clocks, i + 1); }
  }

  ghost function KeysOf(batch: seq<Metric>): set<string> { set i | 0 <= i < |batch| :: IngestKey(batch[i].name, batch[i].labels) }

  lemma {:induction false} RecordsSee(s: State, batch: seq<Metric>, n: nat, clocks: seq<int>)
    requires n <= |batch| == |clocks|
    ensures RecordedAll(s, batch, n, clocks).seen.Keys == s.seen.Keys + KeysOf(batch[..n])
  {
    hide IngestKey;
    if n > 0 {
      RecordsSee(s, batch, n - 1, clocks);
      assert batch[..n] == batch[..n - 1] + [batch[n - 1]];
    }
  }

  /** Only written metrics are recorded: a request that fails adds no series, and one that succeeds
      adds the series of its metrics and no other. */
  lemma {:induction false} OnlyWrittenRecorded(s: State, r: TimedRequest)
    ensures Answer(s, r) != Success ==> Next(s, r).seen.Keys <= s.seen.Keys
    ensures Answer(s, r) == Success ==> KeysOf(r.batch) <= Next(s, r).seen.Keys <= s.seen.Keys + KeysOf(r.batch)
  {
    hide CheckedFrom, RecordedAll, KeysOf;
    ChecksSeeLess(s, r.batch, r.checks, 0);
    RecordsSee(CheckedFrom(s, r.batch, r.checks, 0).state, r.batch, |r.batch|, r.records);
    assert r.batch[..|r.batch|] == r.batch;
  }

  /* ---- the bounds ---- */

  predicate CommaFree(batch: seq<Metric>) { forall i :: 0 <= i < |batch| ==> ',' !in batch[i].name }

  lemma {:induction false} ChecksCounting(s: State, batch: seq<Metric>, clocks: seq<int>, i: nat)
    requires i <= |batch| == |clocks| && Counting(s)
    ensures Counting(CheckedFrom(s, batch, clocks, i).state)
    decreases |batch| - i
  {
    hide Counting, Cleaned, Judged, ValidMetric;
    if i < |batch| {
      CleanedCounting(s, clocks[i]);
      ChecksCounting(Cleaned(s, clocks[i]), batch, clocks, i + 1);
    }
  }

  lemma {:induction false} ChecksCover(s: State, batch: seq<Metric>, clocks: seq<int>, i: nat)
    requires i <= |batch| == |clocks| && Covers(s)
    ensures Covers(CheckedFrom(s, batch, clocks, i).state)
    decreases |batch| - i
  {
    hide Covers, Cleaned, Judged, ValidMetric;
    if i < |batch| {
      CleanedKeeps(s, clocks[i]);
      ChecksCover(Cleaned(s, clocks[i]), batch, clocks, i + 1);
    }
  }

  lemma {:induction false} AllCounting(s: State, batch: seq<Metric>, n: nat, clocks: seq<int>)
    requires n <= |batch| == |clocks| && Counting(s)
    ensures Counting(RecordedAll(s, batch, n, clocks))
  {
    hide Counting, Recorded;
    if n > 0 {
      AllCounting(s, batch, n - 1, clocks);
      RecordedCounting(RecordedAll(s, batch, n - 1, clocks), batch[n - 1], clocks[n - 1]);
    }
  }

  lemma {:induction false} AllCovers(s: State, batch: seq<Metric>, n: nat, clocks: seq<int>)
    requires n <= |batch| == |clocks| && Covers(s) && CommaFree(batch)
    ensures Covers(RecordedAll(s, batch, n, clocks))
  {
    hide Covers, Recorded;
    if n > 0 {
      AllCovers(s, batch, n - 1, clocks);
      RecordedCovers(RecordedAll(s, batch, n - 1, clocks), batch[n - 1], clocks[n - 1]);
    }
  }

  /** Whatever the names and the clocks, every request keeps the counts summing to the total and
      the total at least the number of series seen. */
  lemma {:induction false} NextCounts(s: State, r: TimedRequest)
    requires Counting(s)
    ensures Counting(Next(s, r))
  {
    hide Counting, CheckedFrom, RecordedAll;
    ChecksCounting(s, r.batch, r.checks, 0);
    AllCounting(CheckedFrom(s, r.batch, r.checks, 0).state, r.batch, |r.batch|, r.records);
  }

  /** For names without a comma, whatever the clocks, every request keeps each count at least
      the number of series seen with its name. */
  lemma {:induction false} NextCovers(s: State, r: TimedRequest)
    requires Covers(s) && CommaFree(r.batch)
    ensures Covers(Next(s, r))
  {
    hide Covers, CheckedFrom, RecordedAll, CommaFree;
    ChecksCover(s, r.batch, r.checks, 0);
    AllCovers(CheckedFrom(s, r.batch, r.checks, 0).state, r.batch, |r.batch|, r.records);
  }

  /* ---- the limits ---- */

  ghost predicate Seen(s: State, m: Metric) { IngestKey(m.name, m.labels) in s.seen }

  /** From metric `i` on, no cleanup drops a series that an earlier check let pass because it
      had been seen. */
  ghost predicate KeepsFrom(s: State, batch: seq<Metric>, clocks: seq<int>, i: nat)
    requires i <= |batch| == |clocks|
    decreases |batch| - i
  {
    i == |batch| ||
    var c := Cleaned(s, clocks[i]);
    && (Seen(c, batch[i]) ==> Seen(CheckedFrom(c, batch, clocks, i + 1).state, batch[i]))
    && KeepsFrom(c, batch, clocks, i + 1)
  }

  /** A request that passes its checks still finds, when they are done, the series they let pass
      as seen. */
  ghost predicate Steady(s: State, r: TimedRequest) {
    CheckedFrom(s, r.batch, r.checks, 0).response == Success ==> KeepsFrom(s, r.batch, r.checks, 0)
  }

  /** Enough for that: no check after the first one cleans up. */
  lemma {:induction false} QuietKeeps(s: State, batch: seq<Metric>, clocks: seq<int>, i: nat)
    requires i <= |batch| == |clocks| && forall j :: i <= j < |clocks| ==> clocks[j] - s.lastCleanup < CLEANUP_INTERVAL
    ensures CheckedFrom(s, batch, clocks, i).state == s && KeepsFrom(s, batch, clocks, i)
    decreases |batch| - i
  {
    hide Judged, ValidMetric, Seen;
    if i < |batch| {
      assert Cleaned(s, clocks[i]) == s;
      QuietKeeps(s, batch, clocks, i + 1);
    }
  }

  lemma {:induction false} QuietIsSteady(s: State, r: TimedRequest)
    requires r.batch != [] ==>
               forall j :: 1 <= j < |r.checks| ==> r.checks[j] - Cleaned(s, r.checks[0]).lastCleanup < CLEANUP_INTERVAL
    ensures Steady(s, r)
  {
    hide Judged, ValidMetric, Seen, Cleaned;
    if r.batch != [] { QuietKeeps(Cleaned(s, r.checks[0]), r.batch, r.checks, 1); }
  }

  /** What the checks leave is at most what they found. */
  lemma {:induction false} ChecksLower(s: State, batch: seq<Metric>, clocks: seq<int>, i: nat)
    requires i <= |batch| == |clocks|
    ensures Counting(s) ==> CheckedFrom(s, batch, clocks, i).state.total <= s.total
    ensures Covers(s) ==> forall name :: CountOf(CheckedFrom(s, batch, clocks, i).state.counts, name) <= CountOf(s.counts, name)
    decreases |batch| - i
  {
    hide Counting, Covers, Cleaned, Judged, ValidMetric;
    if i < |batch| {
      var c := Cleaned(s, clocks[i]);
      if Counting(s) {
        CleanedTotal(s, clocks[i]);
        CleanedCounting(s, clocks[i]);
      }
      if Covers(s) {
        CleanedWithin(s, clocks[i]);
        CleanedKeeps(s, clocks[i]);
      }
      ChecksLower(c, batch, clocks, i + 1);
    }
  }

  /** After the checks of a steady request, a series not seen is below the limits. */
  lemma {:induction false} ChecksAdmit(s: State, batch: seq<Metric>, clocks: seq<int>, i: nat, j: nat)
    requires i <= j < |batch| == |clocks|
    requires CheckedFrom(s, batch, clocks, i).response == Success && KeepsFrom(s, batch, clocks, i)
    ensures var t := CheckedFrom(s, batch, clocks, i).state;
            && (Counting(s) ==> Seen(t, batch[j]) || t.total < MAX_UNIQUE_SERIES)
            && (Covers(s) ==> Seen(t, batch[j]) || CountOf(t.counts, batch[j].name) < MAX_SERIES_PER_METRIC)
    decreases j - i
  {
    hide Counting, Covers, Cleaned, ValidMetric, IngestKey;
    var c := Cleaned(s, clocks[i]);
    if Counting(s) { CleanedCounting(s, clocks[i]); }
    if Covers(s) { CleanedKeeps(s, clocks[i]); }
    if i < j {
      ChecksAdmit(c, batch, clocks, i + 1, j);
    } else {
      ChecksLower(c, batch, clocks, i + 1);
    }
  }

  /** The total moves only if it was below its limit, and by at most one for each metric. */
  lemma {:induction false} TotalMoves(s: State, batch: seq<Metric>, n: nat, clocks: seq<int>)
    requires n <= |batch| == |clocks| && forall i :: 0 <= i < n ==> Seen(s, batch[i]) || s.total < MAX_UNIQUE_SERIES
    ensures var t := RecordedAll(s, batch, n, clocks);
            && s.seen.Keys <= t.seen.Keys
            && s.total <= t.total <= s.total + n && (t.total > s.total ==> s.total < MAX_UNIQUE_SERIES)
  {
    hide IngestKey;
    if n > 0 { TotalMoves(s, batch, n - 1, clocks); }
  }

  /** And so does each count. */
  lemma {:induction false} CountMoves(s: State, batch: seq<Metric>, n: nat, clocks: seq<int>, name: string)
    requires n <= |batch| == |clocks|
    requires forall i :: 0 <= i < n && batch[i].name == name ==> Seen(s, batch[i]) || CountOf(s.counts, name) < MAX_SERIES_PER_METRIC
    ensures var t := RecordedAll(s, batch, n, clocks);
            && s.seen.Keys <= t.seen.Keys
            && CountOf(s.counts, name) <= CountOf(t.counts, name) <= CountOf(s.counts, name) + n
            && (CountOf(t.counts, name) > CountOf(s.counts, name) ==> CountOf(s.counts, name) < MAX_SERIES_PER_METRIC)
  {
    hide IngestKey;
    if n > 0 { CountMoves(s, batch, n - 1, clocks, name); }
  }

  const OVERSHOOT: nat := MAX_METRICS_PER_REQUEST - 1

  /** A steady request exceeds the total limit by less than one request. */
  lemma {:induction false} NextTotal(s: State, r: TimedRequest)
    requires Counting(s) && TotalWithin(s, OVERSHOOT) && Steady(s, r)
    ensures TotalWithin(Next(s, r), OVERSHOOT)
  {
    hide Counting, CheckedFrom, RecordedAll, KeepsFrom, Seen;
    ChecksLower(s, r.batch, r.checks, 0);
    var c := CheckedFrom(s, r.batch, r.checks, 0);
    if c.response == Success && |r.batch| <= MAX_METRICS_PER_REQUEST {
      forall j | 0 <= j < |r.batch| ensures Seen(c.state, r.batch[j]) || c.state.total < MAX_UNIQUE_SERIES {
        ChecksAdmit(s, r.batch, r.checks, 0, j);
      }
      TotalMoves(c.state, r.batch, |r.batch|, r.records);
    }
  }

  /** Where the counts cover the names it exceeds each count's limit by less than one request. */
  lemma {:induction false} NextWithin(s: State, r: TimedRequest)
    requires Covers(s) && CountsWithin(s, OVERSHOOT) && Steady(s, r)
    ensures CountsWithin(Next(s, r), OVERSHOOT)
  {
    hide Covers, CheckedFrom, RecordedAll, KeepsFrom, Seen;
    ChecksLower(s, r.batch, r.checks, 0);
    var c := CheckedFrom(s, r.batch, r.checks, 0);
    if c.response == Success && |r.batch| <= MAX_METRICS_PER_REQUEST {
      forall name ensures CountOf(RecordedAll(c.state, r.batch, |r.batch|, r.records).counts, name) <= MAX_SERIES_PER_METRIC + OVERSHOOT {
        forall j | 0 <= j < |r.batch| && r.batch[j].name == name
          ensures Seen(c.state, r.batch[j]) || CountOf(c.state.counts, name) < MAX_SERIES_PER_METRIC
        {
          ChecksAdmit(s, r.batch, r.checks, 0, j);
        }
        CountMoves(c.state, r.batch, |r.batch|, r.records, name);
      }
    }
  }

  /* ---- sequences of requests ---- */

  ghost function Serve(start: int, requests: seq<TimedRequest>): State {
    if requests == [] then NewState(start)
    else Next(Serve(start, requests[..|requests| - 1]), requests[|requests| - 1])
  }

  ghost predicate AllSteady(start: int, requests: seq<TimedRequest>) {
    requests != [] ==>
      AllSteady(start, requests[..|requests| - 1]) && Steady(Serve(start, requests[..|requests| - 1]), requests[|requests| - 1])
  }

  predicate AllCommaFree(requests: seq<TimedRequest>) {
    forall i :: 0 <= i < |requests| ==> CommaFree(requests[i].batch)
  }

  /** In every state a sequence of requests reaches, whatever the clock does, the counts sum to
      the total and the series seen are at most the total; and if no name has a comma the series
      seen of each name are at most its count.  If no cleanup within a request drops a series
      that an earlier check of it let pass as seen, the limits are exceeded by less than one
      request: the total limit always, a count's limit if no name has a comma. */
  lemma {:induction false} ServedWithin(start: int, requests: seq<TimedRequest>)
    ensures var s := Serve(start, requests);
            && Sum(s.counts) == s.total && |s.seen.Keys| <= s.total
            && (AllCommaFree(requests) ==> forall name :: |Named(s.seen.Keys, name)| <= CountOf(s.counts, name))
            && (AllSteady(start, requests) ==> s.total <= 100_999)
            && (AllSteady(start, requests) && AllCommaFree(requests) ==>
                  forall name :: CountOf(s.counts, name) <= 10_999)
  {
    hide Next, Sum, Named, Serve, AllSteady, AllCommaFree;
    ServedCounts(start, requests);
    if AllCommaFree(requests) { ServedCovers(start, requests); }
    if AllSteady(start, requests) { ServedTotal(start, requests); }
    if AllSteady(start, requests) && AllCommaFree(requests) { ServedCountsWithin(start, requests); }
  }

  lemma {:induction false} ServedCounts(start: int, requests: seq<TimedRequest>)
    ensures Counting(Serve(start, requests))
  {
    hide Next, Counting;
    if requests == [] {
      NewCovers(start);
    } else {
      ServedCounts(start, requests[..|requests| - 1]);
      NextCounts(Serve(start, requests[..|requests| - 1]), requests[|requests| - 1]);
    }
  }

  lemma {:induction false} ServedCovers(start: int, requests: seq<TimedRequest>)
    requires AllCommaFree(requests)
    ensures Covers(Serve(start, requests))
  {
    hide Next, Covers, CommaFree;
    if requests == [] {
      NewCovers(start);
    } else {
      ServedCovers(start, requests[..|requests| - 1]);
      NextCovers(Serve(start, requests[..|requests| - 1]), requests[|requests| - 1]);
    }
  }

  lemma {:induction false} ServedTotal(start: int, requests: seq<TimedRequest>)
    requires AllSteady(start, requests)
    ensures TotalWithin(Serve(start, requests), OVERSHOOT)
  {
    hide Next, Counting, Steady;
    if requests == [] {
      NewCovers(start);
    } else {
      var front := requests[..|requests| - 1];
      ServedCounts(start, front);
      ServedTotal(start, front);
      NextTotal(Serve(start, front), requests[|requests| - 1]);
    }
  }

  lemma {:induction false} ServedCountsWithin(start: int, requests: seq<TimedRequest>)
    requires AllSteady(start, requests) && AllCommaFree(requests)
    ensures CountsWithin(Serve(start, requests), OVERSHOOT)
  {
    hide Next, Covers, Steady, CommaFree;
    if requests == [] {
      NewCovers(start);
    } else {
      var front := requests[..|requests| - 1];
      ServedCovers(start, front);
      ServedCountsWithin(start, front);
      NextWithin(Serve(start, front), requests[|requests| - 1]);
    }
  }
}
