/**
 What a whole run of `CompactAndCleanup` (pkg/compaction/compactor.go) leaves in the appending
 store, metric by metric.
 */
module Cleanup {
  import opened Instants
  import opened Options
  import opened SeriesKeys
  import opened Metrics
  import opened MemoryStorage
  import opened Compactor
  import opened KeyedCompaction

  lemma NoneOfOther(out: seq<Metric>, resolution: string, m: Metric)
    requires forall i :: 0 <= i < |out| ==> Resolution(out[i]) == resolution
    ensures Lookup(m.labels, "__resolution__") != resolution ==> multiset(out)[m] == 0
  {
    if m in multiset(out) { assert m in out; }
  }

  /** Raw samples of the last six hours stay and older ones go, whether they were folded or not;
      five-minute aggregates of the last seven days stay, the new ones among them, and older ones
      go; hourly aggregates and whatever carries another resolution stay, the new ones added. */
  lemma {:induction false} CleanedExactly(before: seq<Metric>, five: seq<Metric>, hours: seq<Metric>, now: int, after: seq<Metric>, m: Metric)
    requires CleanedUp(before, five, hours, now, after)
    ensures var r := Lookup(m.labels, "__resolution__");
            multiset(after)[m] ==
            if r == "" then if m.timestamp >= now - 6 * HOUR then multiset(before)[m] else 0
            else if r == "5m" then if m.timestamp >= now - 7 * 24 * HOUR then multiset(before)[m] + multiset(five)[m] else 0
            else multiset(before)[m] + multiset(hours)[m]
  {
    hide Lists, FoldRaw, FoldFive, Select, Identified, PlainBuckets;
    RawBuckets(Select(before, FiveWindow(now)));
    ListedResolution(five, FoldRaw(Select(before, FiveWindow(now))), "5m");
    NoneOfOther(five, "5m", m);
    FiveBuckets(Select(AfterRaw(before, five, now), HourWindow(now)));
    ListedResolution(hours, FoldFive(Select(AfterRaw(before, five, now), HourWindow(now))), "1h");
    NoneOfOther(hours, "1h", m);
    DeletionLeaves(before + five, now - RAW_RETENTION, Some(""), m);
    DeletionLeaves(AfterRaw(before, five, now) + hours, now - FIVE_RETENTION, Some("5m"), m);
  }

  /** The samples a run folds are those of the six hours before the last six, and the five-minute
      aggregates those of the five days before the last two. */
  lemma FoldedExactly(ms: seq<Metric>, now: int, m: Metric)
    ensures m in Select(ms, FiveWindow(now)) <==> m in ms && now - 12 * HOUR <= m.timestamp <= now - 6 * HOUR
    ensures m in Select(ms, HourWindow(now)) <==> m in ms && now - 7 * 24 * HOUR <= m.timestamp <= now - 2 * 24 * HOUR
  {
    hide Select;
    InWindow(ms, now - COMPACT_5M_LOOKBACK, now - COMPACT_5M_DELAY, m);
    InWindow(ms, now - COMPACT_1H_LOOKBACK, now - COMPACT_1H_DELAY, m);
  }
}
