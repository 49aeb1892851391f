/**
 Why the cardinality limits need a clock that stands still between the checks of a request
 (pkg/ingest/cardinality.go, pkg/ingest/handler.go): requests that reach the highest total the
 limits allow, and a further one that passes it.
 */
module Overshoot {
  import opened Instants
  import opened Decimal
  import opened FixedPoint
  import opened Strings
  import opened SeriesKeys
  import opened Metrics
  import opened Cardinality
  import opened Ingest

  /** Series number `k`: a name of its own, no labels. */
  function Name(k: nat): string { "m" + Digits(k) }

  function Series(k: nat): Metric { Metric(Name(k), Counter, 0.0, map[], 0) }

  lemma NameInjective(j: nat, k: nat)
    ensures Name(j) == Name(k) ==> j == k
  {
    if Name(j) == Name(k) {
      assert Name(j)[1..] == Digits(j) && Name(k)[1..] == Digits(k);
      DigitsInjective(j, k);
    }
  }

  lemma KeyIsName(k: nat)
    ensures IngestKey(Series(k).name, Series(k).labels) == Name(k)
  {
    var none := UserLabels(Series(k).labels);
    assert none == map[];
    SortedKeys(none);
    AscendingUnique(Sorted(none.Keys), []);
    assert Name(k) + "" == Name(k);
  }

  lemma {:induction false} DigitsShort(n: nat, k: nat)
    requires k >= 1 && n < Pow10(k)
    ensures |Digits(n)| <= k
    decreases k
  {
    if n >= 10 {
      assert k > 1;
      DigitsShort(n / 10, k - 1);
    }
  }

  lemma SeriesValid(k: nat)
    requires k < 1_000_000
    ensures ValidMetric(Series(k)) && ',' !in Name(k)
  {
    assert Pow10(6) == 1_000_000;
    DigitsShort(k, 6);
    forall i | 0 <= i < |Name(k)| ensures Name(k)[i] != ',' {
      if i > 0 { assert IsDigit(Digits(k)[i - 1]); }
    }
  }

  /** The series `first`, `first + 1`, … */
  function Batch(first: nat, n: nat): (b: seq<Metric>)
    ensures |b| == n && forall i :: 0 <= i < n ==> b[i] == Series(first + i)
  {
    if n == 0 then [] else Batch(first, n - 1) + [Series(first + n - 1)]
  }

  function Readings(n: nat, now: int): (r: seq<int>)
    ensures |r| == n && forall i :: 0 <= i < n ==> r[i] == now
  {
    if n == 0 then [] else Readings(n - 1, now) + [now]
  }

  /** A request for `n` new series, the clock standing still. */
  function Fresh(first: nat, n: nat, now: int): TimedRequest {
    Request(Batch(first, n), Readings(n, now), Readings(n, now), false, true)
  }

  /* ---- what such requests leave ---- */

  const EARLY: nat := 999

  function SeenAt(k: nat): int { if k < EARLY then 0 else DAY }

  /** The tracker holds exactly the first `n` series, each counted once, the first 999 seen at
      time 0 and the others a day later. */
  ghost predicate Holds(s: State, n: nat) {
    && s.total == n
    && (forall k: nat :: k < n ==> Name(k) in s.seen && s.seen[Name(k)] == SeenAt(k))
    && (forall k: nat :: n <= k ==> Name(k) !in s.seen && CountOf(s.counts, Name(k)) == 0)
    && (forall key :: key in s.seen ==> exists k: nat :: k < n && key == Name(k))
  }

  lemma AddOne(s: State, n: nat)
    requires Holds(s, n)
    ensures Holds(Recorded(s, Series(n), SeenAt(n)), n + 1)
    ensures Recorded(s, Series(n), SeenAt(n)).lastCleanup == s.lastCleanup
  {
    hide IngestKey, Name;
    KeyIsName(n);
    var t := Recorded(s, Series(n), SeenAt(n));
    NameIs(n);
    forall k: nat ensures k != n ==> Name(k) != Name(n) { NameInjective(k, n); }
    forall key | key in t.seen ensures exists k: nat :: k < n + 1 && key == Name(k) {
      if key != Name(n) { var k: nat :| k < n && key == Name(k); }
    }
  }

  lemma NameIs(k: nat)
    ensures Series(k).name == Name(k)
  {
  }

  lemma {:induction false} AddAll(s: State, first: nat, n: nat, j: nat, now: int)
    requires Holds(s, first) && j <= n && forall k :: first <= k < first + n ==> SeenAt(k) == now
    ensures var t := RecordedAll(s, Batch(first, n), j, Readings(n, now)); Holds(t, first + j) && t.lastCleanup == s.lastCleanup
    decreases j
  {
    hide Holds, Recorded;
    if j > 0 {
      AddAll(s, first, n, j - 1, now);
      assert SeenAt(first + j - 1) == now;
      AddOne(RecordedAll(s, Batch(first, n), j - 1, Readings(n, now)), first + j - 1);
    }
  }

  lemma NewAllowed(s: State, n: nat, k: nat)
    requires Holds(s, n) && n <= k && n < MAX_UNIQUE_SERIES
    ensures Judged(s, Series(k)) == Allowed
  {
    hide IngestKey, Name;
    KeyIsName(k);
    NameIs(k);
  }

  /** When no cleanup is due, a request for new series below the limit is served whole. */
  lemma {:induction false} AllPass(s: State, first: nat, n: nat, now: int, i: nat)
    requires Holds(s, first) && first < MAX_UNIQUE_SERIES && first + n <= 1_000_000 && i <= n
    requires now - s.lastCleanup < CLEANUP_INTERVAL
    ensures CheckedFrom(s, Batch(first, n), Readings(n, now), i) == Checks(s, Success)
    decreases n - i
  {
    hide Holds, Judged, ValidMetric;
    if i < n {
      SeriesValid(first + i);
      assert Cleaned(s, now) == s;
      NewAllowed(s, first, first + i);
      AllPass(s, first, n, now, i + 1);
    }
  }

  lemma Served(s: State, first: nat, n: nat, now: int)
    requires Holds(s, first) && first < MAX_UNIQUE_SERIES && first + n <= 1_000_000 && n <= MAX_METRICS_PER_REQUEST
    requires now - s.lastCleanup < CLEANUP_INTERVAL && forall k :: first <= k < first + n ==> SeenAt(k) == now
    ensures Holds(Next(s, Fresh(first, n, now)), first + n) && Next(s, Fresh(first, n, now)).lastCleanup == s.lastCleanup
  {
    hide Holds, CheckedFrom, RecordedAll;
    AllPass(s, first, n, now, 0);
    AddAll(s, first, n, n, now);
  }

  /* ---- up to the highest total ---- */

  /** The first day's request: 999 series at time 0. */
  function Early(): TimedRequest { Fresh(0, EARLY, 0) }

  /** The first cleanup a day later drops nothing: the early series were seen exactly a day ago. */
  lemma CleanedNothing(s: State)
    requires Holds(s, EARLY) && s.lastCleanup == 0
    ensures Holds(Cleaned(s, DAY), EARLY) && Cleaned(s, DAY).lastCleanup == DAY
  {
    hide Name, Counted;
    forall key | key in s.seen ensures s.seen[key] == 0 { var k: nat :| k < EARLY && key == Name(k); }
    assert Expired(s, DAY) == {};
    assert s.seen - {} == s.seen;
  }

  /** The first request of the second day: its first check cleans up, and the rest is as before. */
  lemma SecondDay(s: State)
    requires Holds(s, EARLY) && s.lastCleanup == 0
    ensures var t := Next(s, Fresh(EARLY, 1000, DAY)); Holds(t, EARLY + 1000) && t.lastCleanup == DAY
  {
    hide Holds, RecordedAll, Judged, ValidMetric, Cleaned, SeenAt;
    CleanedNothing(s);
    var c := Cleaned(s, DAY);
    SecondDayTimes();
    CleansFirst(s, EARLY, 1000, DAY);
    Served(c, EARLY, 1000, DAY);
  }

  lemma SecondDayTimes()
    ensures forall k :: EARLY <= k ==> SeenAt(k) == DAY
  {
  }

  /** Cleaning up before a request is the same as cleaning up in its first check. */
  lemma CleansFirst(s: State, first: nat, n: nat, now: int)
    requires 0 < n <= MAX_METRICS_PER_REQUEST && first < 1_000_000
    ensures Next(s, Fresh(first, n, now)) == Next(Cleaned(s, now), Fresh(first, n, now))
  {
    hide CheckedFrom, RecordedAll, Cleaned;
    var r := Fresh(first, n, now);
    SeriesValid(first);
    ChecksFirst(s, r);
  }

  lemma ChecksFirst(s: State, r: TimedRequest)
    requires r.batch != [] && ValidMetric(r.batch[0])
    ensures CheckedFrom(s, r.batch, r.checks, 0) == CheckedFrom(Cleaned(s, r.checks[0]), r.batch, r.checks, 0)
  {
    hide Judged, ValidMetric;
    CleanedOnce(s, r.checks[0]);
  }

  lemma CleanedOnce(s: State, now: int)
    ensures Cleaned(Cleaned(s, now), now) == Cleaned(s, now)
  {
    hide Counted;
  }

  /** 999 series on the first day, then `n` requests of 1000 a day later. */
  function Filling(n: nat): seq<TimedRequest> {
    if n == 0 then [Early()] else Filling(n - 1) + [Fresh(EARLY + 1000 * (n - 1), 1000, DAY)]
  }

  lemma {:induction false} Filled(n: nat)
    requires 1 <= n <= 100
    ensures var s := Serve(0, Filling(n)); Holds(s, EARLY + 1000 * n) && s.lastCleanup == DAY
  {
    hide Holds, Next, SeenAt, Fresh;
    var front := Serve(0, Filling(n - 1));
    ServeLast(Filling(n - 1), Fresh(EARLY + 1000 * (n - 1), 1000, DAY));
    if n == 1 {
      FirstDay();
      SecondDay(front);
    } else {
      Filled(n - 1);
      SecondDayTimes();
      Served(front, EARLY + 1000 * (n - 1), 1000, DAY);
    }
  }

  lemma ServeLast(requests: seq<TimedRequest>, r: TimedRequest)
    ensures Serve(0, requests + [r]) == Next(Serve(0, requests), r)
  {
    assert (requests + [r])[..|requests|] == requests;
  }

  lemma FirstDay()
    ensures var s := Serve(0, Filling(0)); Holds(s, EARLY) && s.lastCleanup == 0
  {
    hide Next, Fresh;
    ServeLast([], Early());
    assert [] + [Early()] == [Early()];
    assert Serve(0, []) == NewState(0);
    Served(NewState(0), 0, EARLY, 0);
  }

  /* ---- past it ---- */

  const LATE: int := DAY + HOUR

  /** One early series and one of the second day; the clock passes the hour between the checks. */
  function Passing(): TimedRequest {
    Request([Series(0), Series(EARLY)], [LATE - 1, LATE], [LATE, LATE], false, true)
  }

  lemma {:induction false} ExpiredAre(s: State, n: nat)
    requires Holds(s, n) && n >= EARLY
    ensures Name(0) in Expired(s, LATE) && |Expired(s, LATE)| <= EARLY
    ensures n > EARLY ==> Name(EARLY) !in Expired(s, LATE)
  {
    hide Name;
    forall key | key in Expired(s, LATE) ensures exists k: nat :: k < EARLY && key == Name(k) {
      var k: nat :| k < n && key == Name(k);
    }
    NamesBelow(Expired(s, LATE), EARLY);
  }

  lemma {:induction false} NamesBelow(keys: set<string>, n: nat)
    requires forall key :: key in keys ==> exists k: nat :: k < n && key == Name(k)
    ensures |keys| <= n
  {
    hide Name;
    if n > 0 {
      var less := keys - {Name(n - 1)};
      forall key | key in less ensures exists k: nat :: k < n - 1 && key == Name(k) { var k: nat :| k < n && key == Name(k); }
      NamesBelow(less, n - 1);
      assert keys <= less + {Name(n - 1)};
      Collected(keys, less, Name(n - 1));
    } else {
      assert keys == {};
    }
  }

  lemma Collected(keys: set<string>, less: set<string>, key: string)
    requires less == keys - {key}
    ensures |keys| <= |less| + 1
  {
    if key in keys { assert keys == less + {key}; } else { assert keys == less; }
  }

  /** The early series is admitted because it was seen, dropped by the second check's cleanup,
      and counted again when it is recorded. */
  lemma Passes(s: State, n: nat)
    requires Holds(s, n) && n > EARLY && s.lastCleanup == DAY
    ensures Answer(s, Passing()) == Success && Next(s, Passing()).total == n + 1
    ensures !Steady(s, Passing())
  {
    hide Name, ValidMetric, IngestKey, Counted, Holds;
    SeriesValid(0);
    SeriesValid(EARLY);
    KeyIsName(0);
    KeyIsName(EARLY);
    NameIs(0);
    NameIs(EARLY);
    ExpiredAre(s, n);
    HoldsBoth(s, n);
    var r := Passing();
    var c := Cleaned(s, LATE);
    assert Cleaned(s, LATE - 1) == s;
    assert c.seen == s.seen - Expired(s, LATE) && c.total == s.total;
    TwoChecks(s, c, r);
    TwoRecords(c, r);
    assert Seen(s, r.batch[0]) && !Seen(c, r.batch[0]);
    NotKept(s, c, r);
  }

  /** The first check lets a series pass as seen that the second one's cleanup drops. */
  lemma NotKept(s: State, c: State, r: TimedRequest)
    requires |r.batch| == 2 && CheckedFrom(s, r.batch, r.checks, 0) == Checks(c, Success)
    requires Cleaned(s, r.checks[0]) == s && Seen(s, r.batch[0]) && !Seen(c, r.batch[0])
    ensures !Steady(s, r)
  {
    hide Seen, Cleaned, Judged, ValidMetric;
  }

  lemma HoldsBoth(s: State, n: nat)
    requires Holds(s, n) && n > EARLY
    ensures Name(0) in s.seen && Name(EARLY) in s.seen && s.total == n
  {
  }

  lemma TwoChecks(s: State, c: State, r: TimedRequest)
    requires |r.batch| == 2 && ValidMetric(r.batch[0]) && ValidMetric(r.batch[1])
    requires Cleaned(s, r.checks[0]) == s && Judged(s, r.batch[0]) == Allowed
    requires Cleaned(s, r.checks[1]) == c && Judged(c, r.batch[1]) == Allowed
    ensures CheckedFrom(s, r.batch, r.checks, 0) == Checks(c, Success)
  {
    hide Cleaned, Judged, ValidMetric;
    assert CheckedFrom(c, r.batch, r.checks, 2) == Checks(c, Success);
    assert CheckedFrom(s, r.batch, r.checks, 1) == CheckedFrom(c, r.batch, r.checks, 2);
  }

  lemma TwoRecords(c: State, r: TimedRequest)
    requires |r.batch| == 2
    ensures RecordedAll(c, r.batch, 2, r.records) == Recorded(Recorded(c, r.batch[0], r.records[0]), r.batch[1], r.records[1])
  {
    hide Recorded;
    assert RecordedAll(c, r.batch, 1, r.records) == Recorded(RecordedAll(c, r.batch, 0, r.records), r.batch[0], r.records[0]);
  }

  /* ---- the clock only moves forward ---- */

  predicate Forward(times: seq<int>) { forall i, j :: 0 <= i < j < |times| ==> times[i] <= times[j] }

  /** The clock readings of a sequence of requests, in the order they are taken. */
  function Timeline(requests: seq<TimedRequest>): seq<int> {
    if requests == [] then []
    else Timeline(requests[..|requests| - 1]) + requests[|requests| - 1].checks + requests[|requests| - 1].records
  }

  lemma ForwardJoins(a: seq<int>, b: seq<int>, t: int)
    requires Forward(a) && Forward(b)
    requires (forall i :: 0 <= i < |a| ==> a[i] <= t) && (forall i :: 0 <= i < |b| ==> t <= b[i])
    ensures Forward(a + b)
  {
    forall i, j | 0 <= i < j < |a + b| ensures (a + b)[i] <= (a + b)[j] {
      if i < |a| <= j { assert (a + b)[i] <= t <= (a + b)[j]; }
    }
  }

  lemma TimelineLast(requests: seq<TimedRequest>, r: TimedRequest)
    ensures Timeline(requests + [r]) == Timeline(requests) + (r.checks + r.records)
  {
    assert (requests + [r])[..|requests|] == requests;
  }

  lemma {:induction false} FillingForward(n: nat)
    ensures var times := Timeline(Filling(n)); Forward(times) && forall i :: 0 <= i < |times| ==> times[i] <= DAY
  {
    hide Forward, Fresh, Timeline;
    NothingForward();
    if n == 0 {
      FreshForward([], 0, EARLY, 0);
      assert Filling(0) == [] + [Fresh(0, EARLY, 0)];
    } else {
      FillingForward(n - 1);
      FreshForward(Filling(n - 1), EARLY + 1000 * (n - 1), 1000, DAY);
    }
  }

  lemma FreshForward(before: seq<TimedRequest>, first: nat, n: nat, now: int)
    requires var times := Timeline(before); Forward(times) && forall i :: 0 <= i < |times| ==> times[i] <= now
    ensures var times := Timeline(before + [Fresh(first, n, now)]);
            Forward(times) && forall i :: 0 <= i < |times| ==> times[i] <= now
  {
    hide Forward, Timeline, Batch;
    var r := Fresh(first, n, now);
    TimelineLast(before, r);
    ConstantForward(r.checks + r.records, now);
    ForwardJoins(Timeline(before), r.checks + r.records, now);
  }

  lemma NothingForward()
    ensures Forward([]) && Timeline([]) == []
  {
  }

  lemma ConstantForward(times: seq<int>, t: int)
    requires forall i :: 0 <= i < |times| ==> times[i] == t
    ensures Forward(times)
  {
  }

  lemma PassingForward()
    ensures Forward(Timeline(Filling(100) + [Passing()]))
  {
    hide Filling, Timeline;
    FillingForward(100);
    TimelineLast(Filling(100), Passing());
    ForwardJoins(Timeline(Filling(100)), Passing().checks + Passing().records, DAY);
  }

  /** A real sequence of requests reaches the highest total that steady requests allow, and one
      whose clock passes the cleanup hour between two checks passes it.  Its
      readings never go back. */
  lemma {:induction false} MovingClockOvershoots()
    ensures var s := Serve(0, Filling(100));
            && s.total == 100_999 && !Steady(s, Passing())
            && Forward(Timeline(Filling(100) + [Passing()]))
            && Answer(s, Passing()) == Success && Serve(0, Filling(100) + [Passing()]).total > 100_999
  {
    hide Holds, Next, Answer, Filling, Serve, Forward, Timeline;
    PassingForward();
    Filled(100);
    var s := Serve(0, Filling(100));
    HoldsBoth(s, EARLY + 100_000);
    Passes(s, EARLY + 100_000);
    ServeLast(Filling(100), Passing());
  }
}
