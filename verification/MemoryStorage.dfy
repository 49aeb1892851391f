/**
 The storage contract (pkg/storage/interface.go) and the in-memory store
 (pkg/storage/memory/memory.go), which appends.
 */
module MemoryStorage {
  import opened SeriesKeys
  import opened Metrics
  import opened Options

  datatype QueryRequest = QueryRequest(start: int, end: int, names: seq<string>, labels: Labels, limit: nat)

  /** A query for a whole window. */
  function Window(start: int, end: int): QueryRequest { QueryRequest(start, end, [], map[], 0) }

  /** Both ends of the window are included.  A metric without labels matches no label filter. */
  predicate Matches(m: Metric, req: QueryRequest) {
    && req.start <= m.timestamp <= req.end
    && (req.names == [] || m.name in req.names)
    && (forall k :: k in req.labels ==> m.labels != map[] && Lookup(m.labels, k) == req.labels[k])
  }

  function Select(ms: seq<Metric>, req: QueryRequest): seq<Metric> {
    if ms == [] then []
    else
      var rest := Select(ms[..|ms| - 1], req);
      if Matches(ms[|ms| - 1], req) then rest + [ms[|ms| - 1]] else rest
  }

  function Limited(ms: seq<Metric>, limit: nat): seq<Metric> {
    if 0 < limit < |ms| then ms[..limit] else ms
  }

  /** The first metrics up to the limit; no limit is written as zero. */
  lemma LimitCuts(ms: seq<Metric>, limit: nat)
    ensures Limited(ms, limit) <= ms
    ensures |Limited(ms, limit)| == if limit == 0 || |ms| <= limit then |ms| else limit
  {
  }

  /** What a deletion leaves: everything from `before` on and, when a resolution is given,
      everything of another resolution. */
  predicate Stays(m: Metric, before: int, resolution: Option<string>) {
    m.timestamp >= before || (resolution.Some? && Resolution(m) != resolution.value)
  }

  function Remaining(ms: seq<Metric>, before: int, resolution: Option<string>): seq<Metric> {
    if ms == [] then []
    else
      var rest := Remaining(ms[..|ms| - 1], before, resolution);
      if Stays(ms[|ms| - 1], before, resolution) then rest + [ms[|ms| - 1]] else rest
  }

  lemma {:induction false} SelectAppend(a: seq<Metric>, b: seq<Metric>, req: QueryRequest)
    ensures Select(a + b, req) == Select(a, req) + Select(b, req)
    decreases |b|
  {
    if b == [] {
      assert a + b == a;
    } else {
      assert (a + b)[..|a + b| - 1] == a + b[..|b| - 1];
      SelectAppend(a, b[..|b| - 1], req);
    }
  }

  /** A selection holds, as often as the list does, exactly the metrics that match. */
  lemma {:induction false} SelectCounts(ms: seq<Metric>, req: QueryRequest, m: Metric)
    ensures multiset(Select(ms, req))[m] == if Matches(m, req) then multiset(ms)[m] else 0
  {
    if ms != [] {
      SelectCounts(ms[..|ms| - 1], req, m);
      assert ms == ms[..|ms| - 1] + [ms[|ms| - 1]];
    }
  }

  lemma {:induction false} RemainingCounts(ms: seq<Metric>, before: int, resolution: Option<string>, m: Metric)
    ensures multiset(Remaining(ms, before, resolution))[m] == if Stays(m, before, resolution) then multiset(ms)[m] else 0
  {
    if ms != [] {
      RemainingCounts(ms[..|ms| - 1], before, resolution, m);
      assert ms == ms[..|ms| - 1] + [ms[|ms| - 1]];
    }
  }

  /** A deletion leaves a metric, as often as it is there, exactly when its time is not before the
      given one or a resolution is given that is not its own. */
  lemma {:induction false} DeletionLeaves(ms: seq<Metric>, before: int, resolution: Option<string>, m: Metric)
    ensures multiset(Remaining(ms, before, resolution))[m] ==
            if m.timestamp >= before || (resolution.Some? && Lookup(m.labels, "__resolution__") != resolution.value)
            then multiset(ms)[m] else 0
  {
    RemainingCounts(ms, before, resolution, m);
  }

  const DEFAULT_MAX_METRICS: nat := 50000

  class Storage {
    var metrics: seq<Metric>
    const maxMetrics: nat

    /** As configured, or fifty thousand. */
    function Capacity(): (c: nat)
      ensures maxMetrics == 0 ==> c == 50_000
      ensures maxMetrics != 0 ==> c == maxMetrics
    {
      if maxMetrics == 0 then DEFAULT_MAX_METRICS else maxMetrics
    }

    constructor (max: nat)
      ensures metrics == [] && maxMetrics == max
    {
      metrics, maxMetrics := [], max;
    }

    /** All or nothing: the batch is appended unless it would exceed the capacity. */
    method Write(batch: seq<Metric>) returns (ok: bool)
      modifies this
      ensures ok <==> |old(metrics)| + |batch| <= Capacity()
      ensures metrics == if ok then old(metrics) + batch else old(metrics)
    {
      if |metrics| + |batch| > Capacity() { return false; }
      metrics := metrics + batch;
      return true;
    }

    method Query(req: QueryRequest) returns (results: seq<Metric>)
      ensures results == Limited(Select(metrics, req), req.limit)
    {
      results := [];
      for i := 0 to |metrics|
        invariant results == Select(metrics[..i], req)
        invariant req.limit > 0 ==> |results| < req.limit
      {
        var m := metrics[i];
        SelectAppend(metrics[..i + 1], metrics[i + 1..], req);
        assert metrics[..i + 1] + metrics[i + 1..] == metrics;
        assert metrics[..i + 1][..i] == metrics[..i];
        if m.timestamp < req.start || m.timestamp > req.end { continue; }
        if |req.names| > 0 && m.name !in req.names { continue; }
        if exists k :: k in req.labels && (m.labels == map[] || Lookup(m.labels, k) != req.labels[k]) { continue; }
        results := results + [m];
        if req.limit > 0 && |results| >= req.limit { return; }
      }
      assert metrics[..|metrics|] == metrics;
    }

    method Delete(before: int, resolution: Option<string>)
      modifies this
      ensures metrics == Remaining(old(metrics), before, resolution)
      ensures forall m: Metric ::
                multiset(metrics)[m] ==
                if m.timestamp >= before || (resolution.Some? && Lookup(m.labels, "__resolution__") != resolution.value)
                then old(multiset(metrics)[m]) else 0
    {
      forall m: Metric { DeletionLeaves(metrics, before, resolution, m); }
      var filtered := [];
      for i := 0 to |metrics|
        invariant metrics == old(metrics)
        invariant filtered == Remaining(metrics[..i], before, resolution)
      {
        var m := metrics[i];
        assert metrics[..i + 1][..i] == metrics[..i];
        if m.timestamp >= before {
          filtered := filtered + [m];
        } else if resolution.Some? {
          if Resolution(m) != resolution.value { filtered := filtered + [m]; }
        }
      }
      assert metrics[..|metrics|] == metrics;
      metrics := filtered;
    }
  }
}
