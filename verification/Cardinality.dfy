/**
 The cardinality tracker (pkg/ingest/cardinality.go): counters that over-approximate the set
 of series seen.  Clock readings are parameters.
 */
module Cardinality {
  import opened Instants
  import opened Collections
  import opened Strings
  import opened SeriesKeys
  import opened Metrics

  const MAX_UNIQUE_SERIES: nat := 100_000
  const MAX_SERIES_PER_METRIC: nat := 10_000
  const SERIES_RETENTION := 24 * HOUR
  const CLEANUP_INTERVAL := HOUR
  const REBUILD_ABOVE: nat := 1000

  type Counts = map<string, nat>

  datatype State = State(counts: Counts, total: nat, seen: map<string, int>, lastCleanup: int)

  function CountOf(counts: Counts, name: string): nat { if name in counts then counts[name] else 0 }

  function Incremented(counts: Counts, name: string): Counts { counts[name := CountOf(counts, name) + 1] }

  /** The metric name of a series key: everything before the first comma. */
  function NameOf(key: string): string { key[..IndexOf(key, ',')] }

  /** The keys of one name. */
  function Named(keys: set<string>, name: string): set<string> { set k | k in keys && NameOf(k) == name }

  function Names(keys: set<string>): set<string> { set k | k in keys :: NameOf(k) }

  /** What a rebuild counts. */
  function Counted(keys: set<string>): Counts {
    map name | name in Names(keys) :: |Named(keys, name)|
  }

  /* ---- operations on the state ---- */

  function Expired(s: State, now: int): set<string> { set k | k in s.seen && s.seen[k] < now - SERIES_RETENTION }

  /** `cleanupOldSeriesLocked`: at most once an hour; the counters follow only when more than a
      thousand series expired. */
  function Cleaned(s: State, now: int): State {
    if now - s.lastCleanup < CLEANUP_INTERVAL then s
    else
      var expired := Expired(s, now);
      var seen := s.seen - expired;
      if |expired| > REBUILD_ABOVE then State(Counted(seen.Keys), |seen|, seen, now)
      else s.(seen := seen, lastCleanup := now)
  }

  datatype Verdict = Allowed | TotalLimit | MetricLimit

  ghost function Judged(s: State, m: Metric): Verdict {
    if IngestKey(m.name, m.labels) in s.seen then Allowed
    else if s.total >= MAX_UNIQUE_SERIES then TotalLimit
    else if CountOf(s.counts, m.name) >= MAX_SERIES_PER_METRIC then MetricLimit
    else Allowed
  }

  ghost function Recorded(s: State, m: Metric, now: int): State {
    var key := IngestKey(m.name, m.labels);
    var s' := s.(seen := s.seen[key := now]);
    if key in s.seen then s' else s'.(counts := Incremented(s.counts, m.name), total := s.total + 1)
  }

  /** A check admits a series that was seen within the day, and another one only below 100000 series in
      all and 10000 of its name. */
  lemma JudgedExactly(s: State, m: Metric)
    ensures Judged(s, m) == Allowed <==>
              IngestKey(m.name, m.labels) in s.seen || (s.total < 100_000 && (m.name in s.counts ==> s.counts[m.name] < 10_000))
    ensures Judged(s, m) == TotalLimit <==> IngestKey(m.name, m.labels) !in s.seen && s.total >= 100_000
  {
    hide IngestKey;
  }

  /** A cleanup that is due, an hour after the last one, drops exactly the series not seen for a day, and
      rebuilds the counts from those left only when it drops more than a thousand. */
  lemma CleanedExactly(s: State, now: int)
    ensures now < s.lastCleanup + 3_600_000_000_000 ==> Cleaned(s, now) == s
    ensures now >= s.lastCleanup + 3_600_000_000_000 ==>
              var c := Cleaned(s, now);
              && c.lastCleanup == now
              && (forall k :: k in c.seen <==> k in s.seen && s.seen[k] >= now - 86_400_000_000_000)
              && (forall k :: k in c.seen ==> c.seen[k] == s.seen[k])
              && (|s.seen| - |c.seen| <= 1000 ==> c.counts == s.counts && c.total == s.total)
              && (|s.seen| - |c.seen| > 1000 ==> c.total == |c.seen| && forall name :: CountOf(c.counts, name) == |Named(c.seen.Keys, name)|)
  {
    hide Named, Names;
    var expired := Expired(s, now);
    var seen := s.seen - expired;
    DroppedSize(s.seen, expired);
    forall name ensures CountOf(Counted(seen.Keys), name) == |Named(seen.Keys, name)| { CountedNames(seen.Keys, name); }
  }

  lemma DroppedSize(seen: map<string, int>, expired: set<string>)
    requires expired <= seen.Keys
    ensures |seen - expired| == |seen| - |expired|
  {
    assert (seen - expired).Keys == seen.Keys - expired;
    assert |seen.Keys - expired| == |seen.Keys| - |expired|;
  }

  /* ---- the invariant ---- */

  ghost function Sum(counts: Counts): nat
  {
    if counts == map[] then 0
    else
      assert counts.Keys != {};
      var k :| k in counts;
      counts[k] + Sum(counts - {k})
  }

  lemma {:induction false} SumRemove(counts: Counts, k: string)
    requires k in counts
    ensures Sum(counts) == counts[k] + Sum(counts - {k})
    decreases |counts|
  {
    var j :| j in counts && Sum(counts) == counts[j] + Sum(counts - {j});
    if j != k {
      SumRemove(counts - {j}, k);
      SumRemove(counts - {k}, j);
      assert counts - {j} - {k} == counts - {k} - {j};
    }
  }

  lemma SumIncremented(counts: Counts, name: string)
    ensures Sum(Incremented(counts, name)) == Sum(counts) + 1
  {
    var more := Incremented(counts, name);
    SumRemove(more, name);
    if name in counts {
      SumRemove(counts, name);
      assert more - {name} == counts - {name};
    } else {
      assert more - {name} == counts;
    }
  }

  lemma NamesStep(keys: set<string>, k: string)
    ensures Names(keys + {k}) == Names(keys) + {NameOf(k)}
  {
    hide NameOf;
    var more := keys + {k};
    forall name | name in Names(keys) + {NameOf(k)} ensures name in Names(more) {
      if name == NameOf(k) { assert k in more; } else { var j :| j in keys && NameOf(j) == name; assert j in more; }
    }
  }

  lemma NamedNone(keys: set<string>, name: string)
    requires name !in Names(keys)
    ensures Named(keys, name) == {}
  {
    hide NameOf;
  }

  lemma NamedMore(keys: set<string>, k: string, name: string)
    requires k !in keys
    ensures |Named(keys + {k}, name)| == |Named(keys, name)| + if NameOf(k) == name then 1 else 0
  {
    hide NameOf;
    assert Named(keys + {k}, name) == if NameOf(k) == name then Named(keys, name) + {k} else Named(keys, name);
  }

  lemma CountedStep(keys: set<string>, k: string)
    requires k !in keys
    ensures Counted(keys + {k}) == Incremented(Counted(keys), NameOf(k))
  {
    hide NameOf, Named, Names;
    var more, name := keys + {k}, NameOf(k);
    NamesStep(keys, k);
    if name !in Names(keys) { NamedNone(keys, name); }
    forall n | n in Names(more) ensures Counted(more)[n] == Incremented(Counted(keys), name)[n] { NamedMore(keys, k, n); }
  }

  /** A rebuild counts every key once, under its name. */
  lemma {:induction false} CountedSum(keys: set<string>)
    ensures Sum(Counted(keys)) == |keys|
    decreases |keys|
  {
    if keys == {} {
      assert Counted(keys) == map[];
    } else {
      var k :| k in keys;
      CountedSum(keys - {k});
      CountedStep(keys - {k}, k);
      assert keys - {k} + {k} == keys;
      SumIncremented(Counted(keys - {k}), NameOf(k));
    }
  }

  lemma CountedNames(keys: set<string>, name: string)
    ensures CountOf(Counted(keys), name) == |Named(keys, name)|
  {
    if name !in Names(keys) { NamedNone(keys, name); }
  }

  /** The counts sum to the total, which is not below the number of series seen. */
  ghost predicate Counting(s: State) {
    Sum(s.counts) == s.total && |s.seen.Keys| <= s.total
  }

  /** No count is below the number of series seen with that name. */
  ghost predicate Covers(s: State) {
    forall name :: |Named(s.seen.Keys, name)| <= CountOf(s.counts, name)
  }

  predicate TotalWithin(s: State, extra: nat) { s.total <= MAX_UNIQUE_SERIES + extra }

  ghost predicate CountsWithin(s: State, extra: nat) {
    forall name :: CountOf(s.counts, name) <= MAX_SERIES_PER_METRIC + extra
  }

  lemma FewerNamed(less: set<string>, keys: set<string>)
    requires less <= keys
    ensures |less| <= |keys| && forall name :: |Named(less, name)| <= |Named(keys, name)|
  {
    SubsetSize(less, keys);
    forall name ensures |Named(less, name)| <= |Named(keys, name)| { SubsetSize(Named(less, name), Named(keys, name)); }
  }

  /** Cleanup and rebuild keep the counts summing to the total, whatever the names. */
  lemma CleanedCounting(s: State, now: int)
    requires Counting(s)
    ensures Counting(Cleaned(s, now))
  {
    hide Named, Counted, Sum;
    var seen := s.seen - Expired(s, now);
    FewerNamed(seen.Keys, s.seen.Keys);
    assert |seen| == |seen.Keys|;
    CountedSum(seen.Keys);
  }

  /** They never raise the total. */
  lemma {:induction false} CleanedTotal(s: State, now: int)
    requires Counting(s)
    ensures Cleaned(s, now).total <= s.total
  {
    hide Named, Counted, Sum;
    var seen := s.seen - Expired(s, now);
    FewerNamed(seen.Keys, s.seen.Keys);
    assert |seen| == |seen.Keys|;
  }

  /** Where the counts cover the names, cleanup and rebuild keep them covering. */
  lemma CleanedKeeps(s: State, now: int)
    requires Covers(s)
    ensures Covers(Cleaned(s, now))
  {
    hide Named, Counted, Sum;
    var seen := s.seen - Expired(s, now);
    FewerNamed(seen.Keys, s.seen.Keys);
    forall name ensures CountOf(Counted(seen.Keys), name) == |Named(seen.Keys, name)| { CountedNames(seen.Keys, name); }
  }

  /** And they raise no count. */
  lemma {:induction false} CleanedWithin(s: State, now: int)
    requires Covers(s)
    ensures forall name :: CountOf(Cleaned(s, now).counts, name) <= CountOf(s.counts, name)
  {
    hide Named, Counted, Sum;
    var seen := s.seen - Expired(s, now);
    FewerNamed(seen.Keys, s.seen.Keys);
    forall name ensures CountOf(Counted(seen.Keys), name) == |Named(seen.Keys, name)| { CountedNames(seen.Keys, name); }
  }

  lemma RecordedCounting(s: State, m: Metric, now: int)
    requires Counting(s)
    ensures Counting(Recorded(s, m, now))
  {
    hide Sum, IngestKey;
    var key := IngestKey(m.name, m.labels);
    var s' := Recorded(s, m, now);
    assert s'.seen.Keys == s.seen.Keys + {key};
    SumIncremented(s.counts, m.name);
  }

  /** Recording keeps the counts covering the names, for names without a comma. */
  lemma RecordedCovers(s: State, m: Metric, now: int)
    requires Covers(s) && ',' !in m.name
    ensures Covers(Recorded(s, m, now))
  {
    hide Named, IngestKey;
    var key := IngestKey(m.name, m.labels);
    IngestKeyName(m.name, m.labels);
    var s' := Recorded(s, m, now);
    if key in s.seen {
      assert s'.seen.Keys == s.seen.Keys;
    } else {
      assert s'.seen.Keys == s.seen.Keys + {key};
      forall name ensures |Named(s'.seen.Keys, name)| <= CountOf(s'.counts, name) { NamedMore(s.seen.Keys, key, name); }
    }
  }

  /** From the first series on, the counts cover the series seen exactly when its name has no
      comma: a name with one is counted whole but belongs to what stands before the comma. */
  lemma {:induction false} CoveredExactly(m: Metric, now: int)
    ensures Covers(Recorded(NewState(now), m, now)) <==> ',' !in m.name
  {
    hide Named, IngestKey;
    var key := IngestKey(m.name, m.labels);
    var s := Recorded(NewState(now), m, now);
    NewCovers(now);
    if ',' !in m.name {
      RecordedCovers(NewState(now), m, now);
    } else {
      NameEndsEarly(m.name, LabelTail(UserLabels(m.labels)));
      var name := NameOf(key);
      NamedMore({}, key, name);
      assert s.seen.Keys == {} + {key};
      assert name != m.name;
    }
  }

  /** With a comma in the name, the key's name part is shorter than the name. */
  lemma NameEndsEarly(name: string, tail: string)
    requires ',' in name
    ensures |NameOf(name + tail)| < |name|
  {
    var i := IndexOf(name, ',');
    assert name == name[..i] + [','] + name[i + 1..];
    IndexOfAppend(name[..i], ',', name[i + 1..] + tail);
    assert name + tail == name[..i] + [','] + (name[i + 1..] + tail);
  }

  function NewState(now: int): State { State(map[], 0, map[], now) }

  lemma NewCovers(now: int)
    ensures var s := NewState(now); Counting(s) && Covers(s) && TotalWithin(s, 0) && CountsWithin(s, 0)
  {
  }

  /* ---- the tracker ---- */

  class Tracker {
    var seriesCount: Counts
    var totalSeries: nat
    var seriesSeen: map<string, int>
    var lastCleanup: int

    ghost function Abstract(): State
      reads this
    {
      State(seriesCount, totalSeries, seriesSeen, lastCleanup)
    }

    constructor (now: int)
      ensures Abstract() == NewState(now)
    {
      seriesCount, totalSeries, seriesSeen, lastCleanup := map[], 0, map[], now;
    }

    method Check(m: Metric, now: int) returns (v: Verdict)
      modifies this
      ensures Abstract() == Cleaned(old(Abstract()), now)
      ensures v == Judged(Abstract(), m)
    {
      hide Cleaned, IngestKey;
      CleanupOldSeries(now);
      var key := IngestSeriesKey(m.name, m.labels);
      if key in seriesSeen { return Allowed; }
      if totalSeries >= MAX_UNIQUE_SERIES { return TotalLimit; }
      if CountOf(seriesCount, m.name) >= MAX_SERIES_PER_METRIC { return MetricLimit; }
      return Allowed;
    }

    method Record(m: Metric, now: int)
      modifies this
      ensures Abstract() == Recorded(old(Abstract()), m, now)
    {
      hide IngestKey;
      var key := IngestSeriesKey(m.name, m.labels);
      var existed := key in seriesSeen;
      seriesSeen := seriesSeen[key := now];
      if !existed {
        seriesCount := Incremented(seriesCount, m.name);
        totalSeries := totalSeries + 1;
      }
    }

    method CleanupOldSeries(now: int)
      modifies this
      ensures Abstract() == Cleaned(old(Abstract()), now)
    {
      hide Counted;
      if now - lastCleanup < CLEANUP_INTERVAL { return; }
      lastCleanup := now;
      var toRemove := FindExpired(now - SERIES_RETENTION);
      assert toRemove == Expired(old(Abstract()), now);
      seriesSeen := seriesSeen - toRemove;
      if |toRemove| > REBUILD_ABOVE { RebuildCounts(); }
    }

    /** The loop over the series last seen before the cutoff. */
    method FindExpired(cutoff: int) returns (toRemove: set<string>)
      ensures toRemove == set k | k in seriesSeen && seriesSeen[k] < cutoff
    {
      toRemove := {};
      var left := seriesSeen.Keys;
      while left != {}
        invariant left <= seriesSeen.Keys
        invariant toRemove == set k | k in seriesSeen && k !in left && seriesSeen[k] < cutoff
        decreases |left|
      {
        var key :| key in left;
        if seriesSeen[key] < cutoff { toRemove := toRemove + {key}; }
        left := left - {key};
      }
    }

    /** `rebuildCountsLocked`: counting the keys by the name in front of the first comma. */
    method RebuildCounts()
      modifies this
      ensures seriesSeen == old(seriesSeen) && lastCleanup == old(lastCleanup)
      ensures seriesCount == Counted(seriesSeen.Keys) && totalSeries == |seriesSeen|
    {
      hide Counted, Incremented, NameOf;
      seriesCount, totalSeries := map[], 0;
      ghost var done: set<string> := {};
      CountedNothing();
      var left := seriesSeen.Keys;
      while left != {}
        invariant done + left == seriesSeen.Keys && done !! left
        invariant seriesSeen == old(seriesSeen) && lastCleanup == old(lastCleanup)
        invariant seriesCount == Counted(done) && totalSeries == |done|
        decreases |left|
      {
        var key :| key in left;
        var metricName := MetricName(key);
        CountedStep(done, key);
        Moved(done, left, seriesSeen.Keys, key);
        seriesCount := Incremented(seriesCount, metricName);
        totalSeries := totalSeries + 1;
        done, left := done + {key}, left - {key};
      }
      assert done == seriesSeen.Keys;
    }
  }

  lemma Moved(done: set<string>, left: set<string>, all: set<string>, key: string)
    requires done + left == all && done !! left && key in left
    ensures done + {key} + (left - {key}) == all && done + {key} !! left - {key}
    ensures |done + {key}| == |done| + 1 && |left - {key}| < |left|
  {
  }

  method MetricName(key: string) returns (name: string)
    ensures name == NameOf(key)
  {
    name := key;
    var idx := IndexOf(key, ',');
    assert key[..|key|] == key;
    if idx < |key| { name := key[..idx]; }
  }

  lemma CountedNothing()
    ensures Counted({}) == map[]
  {
  }
}
