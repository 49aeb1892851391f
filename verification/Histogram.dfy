/**
 The client's histogram (pkg/sdk/metrics/histogram.go): cumulative buckets for each label
 combination, sent and reset together.  Counters are unbounded.
 */
module Histograms {
  import opened Strings
  import opened SeriesKeys
  import opened Metrics
  import opened Instants
  import opened Options

  /* ---- label lists and keys ---- */

  /** `makeKey`. */
  function MakeKey(labels: seq<string>): string {
    if labels == [] then ""
    else if |labels| == 1 then labels[0]
    else MakeKey(labels[..|labels| - 1]) + "," + labels[|labels| - 1]
  }

  /** Keys and values in turn; an odd one at the end is dropped, and a repeated key keeps the
      later value. */
  function PairsOf(parts: seq<string>): Labels {
    if |parts| < 2 then map[] else map[parts[0] := parts[1]] + PairsOf(parts[2..])
  }

  /** The value at an odd place belongs to the key in front of it, the last one of a key. */
  ghost predicate LastPair(parts: seq<string>, i: nat, k: string, v: string) {
    && 2 * i + 1 < |parts| && parts[2 * i] == k && parts[2 * i + 1] == v
    && forall j :: i < j && 2 * j + 1 < |parts| ==> parts[2 * j] != k
  }

  ghost predicate HasPair(parts: seq<string>, k: string, v: string) { exists i: nat :: LastPair(parts, i, k, v) }

  lemma {:induction false} PairsExactly(parts: seq<string>, k: string, v: string)
    ensures k in PairsOf(parts) && PairsOf(parts)[k] == v <==> HasPair(parts, k, v)
  {
    if |parts| >= 2 {
      PairsExactly(parts[2..], k, v);
      KeyLater(parts, k);
      if k in PairsOf(parts[2..]) { PairComesAgain(parts, k, v); } else { PairIsLast(parts, k, v); }
    }
  }

  lemma PairComesAgain(parts: seq<string>, k: string, v: string)
    requires |parts| >= 2 && exists j :: 1 <= j && 2 * j + 1 < |parts| && parts[2 * j] == k
    ensures HasPair(parts, k, v) <==> HasPair(parts[2..], k, v)
  {
    hide LastPair;
    if i: nat :| LastPair(parts[2..], i, k, v) { LaterPair(parts, i, k, v); }
    if i: nat :| LastPair(parts, i, k, v) {
      NotFirst(parts, k, v);
      LaterPair(parts, i - 1, k, v);
    }
  }

  lemma NotFirst(parts: seq<string>, k: string, v: string)
    requires exists j :: 1 <= j && 2 * j + 1 < |parts| && parts[2 * j] == k
    ensures !LastPair(parts, 0, k, v)
  {
  }

  lemma PairIsLast(parts: seq<string>, k: string, v: string)
    requires |parts| >= 2 && forall j :: 1 <= j && 2 * j + 1 < |parts| ==> parts[2 * j] != k
    ensures HasPair(parts, k, v) <==> parts[0] == k && parts[1] == v
  {
    if parts[0] == k && parts[1] == v { assert LastPair(parts, 0, k, v); }
  }

  lemma LaterPair(parts: seq<string>, i: nat, k: string, v: string)
    requires |parts| >= 2
    ensures LastPair(parts[2..], i, k, v) <==> LastPair(parts, i + 1, k, v)
  {
    var rest := parts[2..];
    assert forall j: nat :: 2 * j + 1 < |rest| ==> rest[2 * j] == parts[2 * (j + 1)];
    if LastPair(rest, i, k, v) {
      forall j | i + 1 < j && 2 * j + 1 < |parts| ensures parts[2 * j] != k { assert rest[2 * (j - 1)] != k; }
    }
    if LastPair(parts, i + 1, k, v) {
      forall j | i < j && 2 * j + 1 < |rest| ensures rest[2 * j] != k { assert parts[2 * (j + 1)] != k; }
    }
  }

  /** The first pair counts exactly when its key does not come again. */
  lemma {:induction false} KeyLater(parts: seq<string>, k: string)
    requires |parts| >= 2
    ensures k in PairsOf(parts[2..]) <==> exists j :: 1 <= j && 2 * j + 1 < |parts| && parts[2 * j] == k
    decreases |parts|
  {
    var rest := parts[2..];
    assert forall j: nat :: 2 * j + 1 < |rest| ==> rest[2 * j] == parts[2 * (j + 1)];
    if |rest| >= 2 {
      KeyLater(rest, k);
      if j :| 1 <= j && 2 * j + 1 < |rest| && rest[2 * j] == k { assert parts[2 * (j + 1)] == k; }
      if j :| 1 <= j && 2 * j + 1 < |parts| && parts[2 * j] == k { assert rest[2 * (j - 1)] == k; }
      assert parts[2 * 1] == rest[0];
    }
  }

  /** `keyToLabels`. */
  function KeyToLabels(key: string): Labels { if key == "" then map[] else PairsOf(Split(key, ',')) }

  method JoinLabels(labels: seq<string>) returns (key: string)
    ensures key == MakeKey(labels)
  {
    key := "";
    for i := 0 to |labels|
      invariant key == MakeKey(labels[..i])
    {
      assert labels[..i + 1][..i] == labels[..i];
      if i > 0 { key := key + ","; }
      key := key + labels[i];
    }
    assert labels[..|labels|] == labels;
  }

  lemma {:induction false} PairsAppend(parts: seq<string>, k: string, v: string)
    requires |parts| % 2 == 0
    ensures PairsOf(parts + [k, v]) == PairsOf(parts)[k := v]
    decreases |parts|
  {
    if parts == [] {
      assert ([] + [k, v])[2..] == [];
    } else {
      assert (parts + [k, v])[2..] == parts[2..] + [k, v];
      PairsAppend(parts[2..], k, v);
    }
  }

  lemma {:induction false} PairsOdd(parts: seq<string>, last: string)
    requires |parts| % 2 == 0
    ensures PairsOf(parts + [last]) == PairsOf(parts)
    decreases |parts|
  {
    if parts != [] {
      assert (parts + [last])[2..] == parts[2..] + [last];
      PairsOdd(parts[2..], last);
    }
  }

  method SplitLabels(key: string) returns (labels: Labels)
    ensures labels == KeyToLabels(key)
  {
    hide PairsOf;
    if key == "" { return map[]; }
    labels := map[];
    var parts := Split(key, ',');
    var i := 0;
    NoPairsOf();
    while i < |parts| - 1
      invariant i % 2 == 0 && i <= |parts|
      invariant labels == PairsOf(parts[..i])
    {
      assert parts[..i + 2] == parts[..i] + [parts[i], parts[i + 1]];
      PairsAppend(parts[..i], parts[i], parts[i + 1]);
      labels := labels[parts[i] := parts[i + 1]];
      i := i + 2;
    }
    if i == |parts| { assert parts[..i] == parts; } else { assert parts == parts[..i] + [parts[i]]; PairsOdd(parts[..i], parts[i]); }
  }

  lemma NoPairsOf()
    ensures PairsOf([]) == map[]
  {
  }

  predicate CommaFree(labels: seq<string>) { forall i :: 0 <= i < |labels| ==> ',' !in labels[i] }

  lemma {:induction false} SplitAppend(a: string, c: char, b: string)
    requires c !in b
    ensures Split(a + [c] + b, c) == Split(a, c) + [b]
    decreases |a|
  {
    hide Split;
    var i := IndexOf(a, c);
    if i == |a| {
      assert a[..i] == a;
      SplitFirst(a, c, b);
      SplitNone(a, c);
      SplitNone(b, c);
    } else {
      var front, rest := a[..i], a[i + 1..];
      assert a == front + [c] + rest;
      SplitAppend(rest, c, b);
      SplitFirst(front, c, rest);
      SplitFirst(front, c, rest + [c] + b);
      assert a + [c] + b == front + [c] + (rest + [c] + b);
    }
  }

  lemma {:induction false} SplitMakeKey(labels: seq<string>)
    requires CommaFree(labels) && labels != []
    ensures Split(MakeKey(labels), ',') == labels
    decreases |labels|
  {
    if |labels| == 1 {
      SplitNone(labels[0], ',');
    } else {
      var front, last := labels[..|labels| - 1], labels[|labels| - 1];
      assert forall i :: 0 <= i < |front| ==> front[i] == labels[i];
      SplitMakeKey(front);
      assert MakeKey(labels) == MakeKey(front) + [','] + last;
      SplitAppend(MakeKey(front), ',', last);
    }
  }

  /** The key of a comma-free label list gives back the map of its pairs. */
  lemma KeyRoundTrip(labels: seq<string>)
    requires CommaFree(labels)
    ensures KeyToLabels(MakeKey(labels)) == PairsOf(labels)
  {
    if labels != [] {
      SplitMakeKey(labels);
      if MakeKey(labels) == "" { assert Split("", ',') == [""]; }
    }
  }

  /* ---- buckets ---- */

  /** How many of the values are at most `bound`. */
  function UpTo(xs: seq<real>, bound: real): nat {
    if xs == [] then 0 else UpTo(xs[..|xs| - 1], bound) + if xs[|xs| - 1] <= bound then 1 else 0
  }

  function SumOf(xs: seq<real>): real {
    if xs == [] then 0.0 else SumOf(xs[..|xs| - 1]) + xs[|xs| - 1]
  }

  lemma {:induction false} UpToIncreases(xs: seq<real>, a: real, b: real)
    requires a <= b
    ensures UpTo(xs, a) <= UpTo(xs, b) <= |xs|
  {
    if xs != [] { UpToIncreases(xs[..|xs| - 1], a, b); }
  }

  lemma {:induction false} UpToAppend(xs: seq<real>, ys: seq<real>, bound: real)
    ensures UpTo(xs + ys, bound) == UpTo(xs, bound) + UpTo(ys, bound)
    ensures SumOf(xs + ys) == SumOf(xs) + SumOf(ys)
    decreases |ys|
  {
    if ys == [] {
      assert xs + ys == xs;
    } else {
      assert (xs + ys)[..|xs + ys| - 1] == xs + ys[..|ys| - 1];
      UpToAppend(xs, ys[..|ys| - 1], bound);
    }
  }

  const DEFAULT_BUCKETS: seq<real> := [0.001, 0.005, 0.01, 0.025, 0.05, 0.1, 0.25, 0.5, 1.0, 2.5, 5.0, 10.0]

  /** The default buckets are cumulative: each counts what the one before counts, and none
      more than all observations. */
  lemma {:induction false} DefaultCumulative(xs: seq<real>, i: nat, j: nat)
    requires i <= j < |DEFAULT_BUCKETS|
    ensures UpTo(xs, DEFAULT_BUCKETS[i]) <= UpTo(xs, DEFAULT_BUCKETS[j]) <= |xs|
  {
    UpToIncreases(xs, DEFAULT_BUCKETS[i], DEFAULT_BUCKETS[j]);
  }

  /** The bucket for ten seconds is labelled `+Inf`, but it holds all observations exactly when
      none is above ten. */
  lemma {:induction false} LastBucketIsAll(xs: seq<real>)
    ensures UpTo(xs, 10.0) == |xs| <==> forall i :: 0 <= i < |xs| ==> xs[i] <= 10.0
  {
    if xs != [] {
      LastBucketIsAll(xs[..|xs| - 1]);
      UpToIncreases(xs[..|xs| - 1], 10.0, 10.0);
    }
  }

  class BucketSet {
    const buckets: seq<real>
    const counts: array<nat>
    var sum: real
    var count: nat
    /** The observations since the last reset. */
    ghost var observed: seq<real>

    ghost predicate Valid()
      reads this, counts
    {
      && counts.Length == |buckets|
      && count == |observed| && sum == SumOf(observed)
      && forall i :: 0 <= i < |buckets| ==> counts[i] == UpTo(observed, buckets[i])
    }

    constructor (buckets: seq<real>)
      ensures Valid() && this.buckets == buckets && observed == [] && fresh(counts)
    {
      this.buckets, sum, count, observed := buckets, 0.0, 0, [];
      counts := new nat[|buckets|](_ => 0);
    }

    method Observe(value: real)
      requires Valid()
      modifies this, counts
      ensures Valid() && observed == old(observed) + [value]
    {
      count := count + 1;
      sum := sum + value;
      observed := observed + [value];
      assert observed[..|observed| - 1] == old(observed);
      for i := 0 to |buckets|
        invariant counts.Length == |buckets|
        invariant sum == SumOf(observed) && count == |observed| && observed == old(observed) + [value]
        invariant forall j :: 0 <= j < i ==> counts[j] == UpTo(observed, buckets[j])
        invariant forall j :: i <= j < |buckets| ==> counts[j] == UpTo(old(observed), buckets[j])
        modifies counts
      {
        if value <= buckets[i] { counts[i] := counts[i] + 1; }
      }
    }

    method Pending() returns (some: bool)
      requires Valid()
      ensures some <==> observed != []
    {
      some := count != 0;
    }

    method Reset()
      requires Valid()
      modifies this, counts
      ensures Valid() && observed == []
    {
      for i := 0 to counts.Length
        invariant forall j :: 0 <= j < i ==> counts[j] == 0
        modifies counts
      {
        counts[i] := 0;
      }
      sum, count, observed := 0.0, 0, [];
    }
  }

  /* ---- the histogram ---- */

  type Pending = map<string, seq<real>>

  function PendingAt(p: Pending, key: string): seq<real> { if key in p then p[key] else [] }

  function Noted(p: Pending, key: string, value: real): Pending { p[key := PendingAt(p, key) + [value]] }

  function PartlySent(p: Pending, left: set<string>): Pending { map k | k in p :: if k in left then p[k] else [] }

  function AllSent(p: Pending): Pending { map k | k in p :: [] }

  /** A flush panics when unlabelled observations are pending. */
  function Flushed(p: Pending): Option<Pending> { if PendingAt(p, "") == [] then Some(AllSent(p)) else None }

  /** The text of a bound is a parameter but for the last one. */
  function FormatBound(bound: real, text: real -> string): string { if bound == 10.0 then "+Inf" else text(bound) }

  function HistogramMetric(name: string, value: real, labels: Labels): Metric {
    Metric(name, MetricType.Histogram, value, labels, ZERO_TIME)
  }

  function BucketMetrics(name: string, buckets: seq<real>, n: nat, labels: Labels, xs: seq<real>, text: real -> string): seq<Metric>
    requires n <= |buckets|
  {
    if n == 0 then []
    else
      BucketMetrics(name, buckets, n - 1, labels, xs, text) +
      [HistogramMetric(name + "_bucket", UpTo(xs, buckets[n - 1]) as real, labels["le" := FormatBound(buckets[n - 1], text)])]
  }

  /** What is sent for one label combination. */
  function SetMetrics(name: string, buckets: seq<real>, key: string, xs: seq<real>, text: real -> string): seq<Metric> {
    if xs == [] then []
    else
      var labels := KeyToLabels(key);
      BucketMetrics(name, buckets, |buckets|, labels, xs, text) +
      [HistogramMetric(name + "_sum", SumOf(xs), labels), HistogramMetric(name + "_count", |xs| as real, labels)]
  }

  function Sent(name: string, buckets: seq<real>, order: seq<string>, p: Pending, text: real -> string): seq<Metric> {
    if order == [] then []
    else
      var k := order[|order| - 1];
      Sent(name, buckets, order[..|order| - 1], p, text) + SetMetrics(name, buckets, k, PendingAt(p, k), text)
  }

  lemma {:induction false} UpToCounts(xs: seq<real>, bound: real)
    ensures UpTo(xs, bound) == |set i | 0 <= i < |xs| && xs[i] <= bound|
  {
    if xs != [] {
      var n := |xs| - 1;
      UpToCounts(xs[..n], bound);
      var less, all := set i | 0 <= i < |xs[..n]| && xs[..n][i] <= bound, set i | 0 <= i < |xs| && xs[i] <= bound;
      assert all == if xs[n] <= bound then less + {n} else less;
    }
  }

  lemma {:induction false} BucketAt(name: string, buckets: seq<real>, n: nat, labels: Labels, xs: seq<real>, text: real -> string, i: nat)
    requires i < n <= |buckets|
    ensures |BucketMetrics(name, buckets, n, labels, xs, text)| == n
    ensures var m := BucketMetrics(name, buckets, n, labels, xs, text)[i];
            m == HistogramMetric(name + "_bucket", UpTo(xs, buckets[i]) as real, labels["le" := FormatBound(buckets[i], text)])
  {
    hide UpTo;
    BucketSize(name, buckets, n, labels, xs, text);
    if i < n - 1 {
      BucketAt(name, buckets, n - 1, labels, xs, text, i);
    } else {
      BucketSize(name, buckets, n - 1, labels, xs, text);
    }
  }

  lemma {:induction false} BucketSize(name: string, buckets: seq<real>, n: nat, labels: Labels, xs: seq<real>, text: real -> string)
    requires n <= |buckets|
    ensures |BucketMetrics(name, buckets, n, labels, xs, text)| == n
  {
    if n > 0 { BucketSize(name, buckets, n - 1, labels, xs, text); }
  }

  /** What is sent for a key with observations: for each bound the number of observations not above it,
      labelled with the bound, then their sum and their number, all under the labels of the key. */
  lemma {:induction false} SetSends(name: string, buckets: seq<real>, key: string, xs: seq<real>, text: real -> string)
    requires xs != []
    ensures var ms, n := SetMetrics(name, buckets, key, xs, text), |buckets|;
            && |ms| == n + 2
            && (forall i :: 0 <= i < n ==>
                  && ms[i].name == name + "_bucket" && ms[i].value == (|set j | 0 <= j < |xs| && xs[j] <= buckets[i]|) as real
                  && ms[i].labels == KeyToLabels(key)["le" := if buckets[i] == 10.0 then "+Inf" else text(buckets[i])])
            && ms[n].name == name + "_sum" && ms[n].value == SumOf(xs) && ms[n].labels == KeyToLabels(key)
            && ms[n + 1].name == name + "_count" && ms[n + 1].value == |xs| as real && ms[n + 1].labels == KeyToLabels(key)
  {
    hide UpTo, SumOf, KeyToLabels, BucketMetrics;
    var labels, n := KeyToLabels(key), |buckets|;
    BucketSize(name, buckets, n, labels, xs, text);
    forall i | 0 <= i < n
      ensures BucketMetrics(name, buckets, n, labels, xs, text)[i] ==
              HistogramMetric(name + "_bucket", (|set j | 0 <= j < |xs| && xs[j] <= buckets[i]|) as real, labels["le" := FormatBound(buckets[i], text)])
    {
      BucketAt(name, buckets, n, labels, xs, text, i);
      UpToCounts(xs, buckets[i]);
    }
  }

  /** The sum of the observations, in the order they were made. */
  lemma {:induction false} SumGrows(xs: seq<real>, x: real)
    ensures SumOf([]) == 0.0 && SumOf(xs + [x]) == SumOf(xs) + x
  {
    UpToAppend(xs, [x], x);
    assert [x][..0] == [];
  }

  /** `order` goes through the keys once. */
  ghost predicate Visits(order: seq<string>, p: Pending) {
    && (forall i, j :: 0 <= i < j < |order| ==> order[i] != order[j])
    && (forall k :: k in order <==> k in p)
  }

  /** Where `Flush` stands: the keys gone through, those left, and what has been sent. */
  ghost predicate Sending(name: string, buckets: seq<real>, text: real -> string, order: seq<string>, left: set<string>,
                          before: Pending, metrics: seq<Metric>)
  {
    && (forall i, j :: 0 <= i < j < |order| ==> order[i] != order[j])
    && (forall k :: k in order <==> k in before && k !in left)
    && metrics == Sent(name, buckets, order, before, text)
    && ("" !in left ==> PendingAt(before, "") == [])
  }

  lemma SendingFirst(name: string, buckets: seq<real>, before: Pending, text: real -> string)
    ensures Sending(name, buckets, text, [], before.Keys, before, []) && PartlySent(before, before.Keys) == before
  {
  }

  lemma SendingNext(name: string, buckets: seq<real>, text: real -> string, order: seq<string>, left: set<string>,
                    before: Pending, metrics: seq<Metric>, k: string)
    requires Sending(name, buckets, text, order, left, before, metrics) && left <= before.Keys && k in left
    ensures PartlySent(before, left).Keys == before.Keys && PartlySent(before, left)[k] == before[k]
    ensures PartlySent(before, left)[k := []] == PartlySent(before, left - {k})
    ensures k != "" || before[k] == [] ==>
              Sending(name, buckets, text, order + [k], left - {k}, before, metrics + SetMetrics(name, buckets, k, before[k], text))
    ensures k == "" && before[k] != [] ==> PendingAt(before, "") != []
  {
    hide SetMetrics;
    assert (order + [k])[..|order|] == order;
  }

  lemma SendingLast(name: string, buckets: seq<real>, text: real -> string, order: seq<string>, before: Pending, metrics: seq<Metric>)
    requires Sending(name, buckets, text, order, {}, before, metrics)
    ensures Visits(order, before) && metrics == Sent(name, buckets, order, before, text)
    ensures PendingAt(before, "") == [] && PartlySent(before, {}) == AllSent(before)
  {
    hide Sent;
  }

  class Histogram {
    const name: string
    const buckets: seq<real>
    const text: real -> string
    var sets: map<string, BucketSet>
    ghost var Repr: set<object>

    /** Every combination has bucket counts of its own. */
    ghost predicate Separate()
      reads this, Repr
    {
      && this !in Repr
      && (forall k :: k in sets ==> sets[k] in Repr && sets[k].counts in Repr)
      && (forall j, k :: j in sets && k in sets && j != k ==> sets[j] != sets[k] && sets[j].counts != sets[k].counts)
    }

    ghost predicate Valid()
      reads this, Repr
    {
      Separate() && buckets == DEFAULT_BUCKETS && forall k :: k in sets ==> sets[k].Valid() && sets[k].buckets == buckets
    }

    /** The observations not sent yet. */
    ghost function Unsent(): Pending
      requires Valid()
      reads this, Repr
    {
      map k | k in sets :: sets[k].observed
    }

    constructor (name: string, text: real -> string)
      ensures Valid() && Unsent() == map[] && this.name == name && this.text == text
    {
      this.name, this.text, buckets, sets, Repr := name, text, DEFAULT_BUCKETS, map[], {};
    }

    method Observe(value: real, labels: seq<string>)
      requires Valid()
      modifies this, Repr
      ensures Valid() && fresh(Repr - old(Repr)) && Unsent() == Noted(old(Unsent()), MakeKey(labels), value)
    {
      hide Separate, Unsent, Valid, MakeKey;
      var key := JoinLabels(labels);
      AddSet(key);
      ObserveAt(key, value);
    }

    method ObserveAt(key: string, value: real)
      requires Valid() && key in Unsent()
      modifies Repr
      ensures Valid() && Repr == old(Repr) && Unsent() == old(Unsent())[key := old(Unsent())[key] + [value]]
    {
      hide BucketSet.Valid;
      var bs := sets[key];
      bs.Observe(value);
      assert forall k :: k in sets && k != key ==> sets[k].observed == old(sets[k].observed) && sets[k].Valid();
    }

    /** A set for a combination not seen before. */
    method AddSet(key: string)
      requires Valid()
      modifies this
      ensures Valid() && fresh(Repr - old(Repr)) && Unsent() == old(Unsent())[key := PendingAt(old(Unsent()), key)]
    {
      hide UpTo, SumOf, BucketSet.Valid;
      if key !in sets {
        var added := new BucketSet(buckets);
        PutSet(key, added);
      }
    }

    method PutSet(key: string, added: BucketSet)
      requires Valid() && key !in sets && added.Valid() && added.buckets == buckets && added.observed == []
      requires this !in Repr + {added} && added !in Repr && added.counts !in Repr
      modifies this
      ensures Valid() && Repr == old(Repr) + {added, added.counts} && Unsent() == old(Unsent())[key := []]
    {
      hide BucketSet.Valid;
      sets := sets[key := added];
      Repr := Repr + {added, added.counts};
    }

    /** `Flush`.  `!ok` when the bucket label is written to the nil label map that the empty key
        decodes to; the sets gone through before have been reset then. */
    method Flush() returns (ok: bool, metrics: seq<Metric>)
      requires Valid()
      modifies Repr
      ensures Valid()
      ensures Flushed(old(Unsent())) == if ok then Some(Unsent()) else None
      ensures ok ==> exists order :: Visits(order, old(Unsent())) && metrics == Sent(name, buckets, order, old(Unsent()), text)
    {
      hide Valid, Separate, Unsent, PartlySent, Sending, Sent, SetMetrics, Visits;
      ghost var before := Unsent();
      metrics, ok := [], true;
      ghost var order: seq<string> := [];
      var left := Keys();
      SendingFirst(name, buckets, before, text);
      while left != {}
        invariant Valid() && Repr == old(Repr)
        invariant left <= before.Keys && Unsent() == PartlySent(before, left)
        invariant Sending(name, buckets, text, order, left, before, metrics)
        decreases |left|
      {
        var k :| k in left;
        SendingNext(name, buckets, text, order, left, before, metrics, k);
        var more;
        ok, more := SendSet(k);
        if !ok { return; }
        order, metrics, left := order + [k], metrics + more, left - {k};
      }
      SendingLast(name, buckets, text, order, before, metrics);
    }

    method Keys() returns (keys: set<string>)
      requires Valid()
      ensures keys == Unsent().Keys
    {
      keys := sets.Keys;
    }

    /** The loop body of `Flush`: skipping an empty set, else sending and resetting it. */
    method SendSet(key: string) returns (ok: bool, metrics: seq<Metric>)
      requires Valid() && key in Unsent()
      modifies Repr
      ensures Valid() && Repr == old(Repr)
      ensures ok <==> key != "" || old(Unsent())[key] == []
      ensures ok ==> Unsent() == old(Unsent())[key := []] && metrics == SetMetrics(name, buckets, key, old(Unsent())[key], text)
    {
      hide BucketSet.Valid, SetMetrics;
      var bs := sets[key];
      NothingSent(name, buckets, key, text);
      var pending := bs.Pending();
      if !pending { return true, []; }
      if key == "" { return false, []; }
      ok := true;
      metrics := Send(key, bs);
      assert forall k :: k in sets && k != key ==> sets[k].observed == old(sets[k].observed) && sets[k].Valid();
    }

    /** Sending one set and resetting it. */
    method Send(key: string, bs: BucketSet) returns (metrics: seq<Metric>)
      requires bs.Valid() && bs.buckets == buckets && bs.observed != []
      modifies bs, bs.counts
      ensures bs.Valid() && bs.observed == []
      ensures metrics == SetMetrics(name, buckets, key, old(bs.observed), text)
    {
      hide UpTo, SumOf;
      var labels := SplitLabels(key);
      metrics := [];
      for i := 0 to |bs.buckets|
        invariant metrics == BucketMetrics(name, buckets, i, labels, bs.observed, text)
      {
        var bucketLabels := labels["le" := FormatBound(bs.buckets[i], text)];
        metrics := metrics + [HistogramMetric(name + "_bucket", bs.counts[i] as real, bucketLabels)];
      }
      metrics := metrics + [HistogramMetric(name + "_sum", bs.sum, labels)];
      metrics := metrics + [HistogramMetric(name + "_count", bs.count as real, labels)];
      bs.Reset();
    }
  }

  lemma NothingSent(name: string, buckets: seq<real>, key: string, text: real -> string)
    ensures SetMetrics(name, buckets, key, [], text) == []
  {
  }

  /* ---- runs ---- */

  datatype Event = Observe(value: real, labels: seq<string>) | Flush

  /** The unsent observations after a run of events; nothing once a flush has panicked, which
      ends the program. */
  function After(events: seq<Event>): Option<Pending> {
    if events == [] then Some(map[])
    else
      match After(events[..|events| - 1])
      case None => None
      case Some(p) =>
        match events[|events| - 1]
        case Observe(value, labels) => Some(Noted(p, MakeKey(labels), value))
        case Flush => Flushed(p)
  }

  /** Every observation of a key, in order. */
  function Observations(events: seq<Event>, key: string): seq<real> {
    if events == [] then []
    else
      var rest := Observations(events[..|events| - 1], key);
      match events[|events| - 1]
      case Observe(value, labels) => if MakeKey(labels) == key then rest + [value] else rest
      case Flush => rest
  }

  /** What the last event of a run, when it is a flush that returns, sends of a key. */
  function LastSent(events: seq<Event>, key: string): seq<real>
    requires events != []
  {
    var before := After(events[..|events| - 1]);
    if events[|events| - 1].Flush? && before.Some? && Flushed(before.value).Some? then PendingAt(before.value, key) else []
  }

  /** The observations of a key that flushes have sent, in order. */
  function SentOf(events: seq<Event>, key: string): seq<real> {
    if events == [] then [] else SentOf(events[..|events| - 1], key) + LastSent(events, key)
  }

  /** While the program lives, sent and pending observations are all observations, in order. */
  lemma {:induction false} SentAndPending(events: seq<Event>, key: string)
    requires After(events).Some?
    ensures SentOf(events, key) + PendingAt(After(events).value, key) == Observations(events, key)
  {
    hide MakeKey;
    if events != [] { SentAndPending(events[..|events| - 1], key); }
  }

  predicate Unlabelled(e: Event) { e.Observe? && MakeKey(e.labels) == "" }

  /** Unlabelled observations are never sent. */
  lemma {:induction false} UnlabelledStay(events: seq<Event>)
    requires After(events).Some?
    ensures PendingAt(After(events).value, "") == [] <==> forall i :: 0 <= i < |events| ==> !Unlabelled(events[i])
  {
    hide MakeKey;
    if events != [] {
      var front, last := events[..|events| - 1], events[|events| - 1];
      UnlabelledStay(front);
      assert forall i :: 0 <= i < |front| ==> front[i] == events[i];
    }
  }

  ghost predicate FlushesUnlabelled(events: seq<Event>) {
    exists i, j :: 0 <= i < j < |events| && Unlabelled(events[i]) && events[j].Flush?
  }

  /** A run panics exactly when a flush comes after an unlabelled observation. */
  lemma {:induction false} PanicsExactly(events: seq<Event>)
    ensures After(events).None? <==> FlushesUnlabelled(events)
  {
    hide Unlabelled;
    if events != [] {
      var front, last := events[..|events| - 1], events[|events| - 1];
      PanicsExactly(front);
      assert forall i :: 0 <= i < |front| ==> front[i] == events[i];
      if After(front).Some? { UnlabelledStay(front); }
    }
  }

  /** The total that flushes have sent of the bucket of a key at a bound. */
  function SentCount(events: seq<Event>, key: string, bound: real): nat {
    if events == [] then 0 else SentCount(events[..|events| - 1], key, bound) + UpTo(LastSent(events, key), bound)
  }

  lemma {:induction false} SentCountIs(events: seq<Event>, key: string, bound: real)
    ensures SentCount(events, key, bound) == UpTo(SentOf(events, key), bound)
  {
    hide LastSent, UpTo;
    NoneUpTo(bound);
    if events != [] {
      var front := events[..|events| - 1];
      SentCountIs(front, key, bound);
      UpToAppend(SentOf(front, key), LastSent(events, key), bound);
    }
  }

  lemma NoneUpTo(bound: real)
    ensures UpTo([], bound) == 0
  {
  }

  /** While the program lives, for every bound: the bucket counts sent so far and the pending
      bucket count make up the observations of that key at most the bound. */
  lemma {:induction false} BucketsConserve(events: seq<Event>, key: string, bound: real)
    requires After(events).Some?
    ensures SentCount(events, key, bound) + UpTo(PendingAt(After(events).value, key), bound) == UpTo(Observations(events, key), bound)
  {
    hide After, Observations, SentOf, SentCount, UpTo;
    SentCountIs(events, key, bound);
    SentAndPending(events, key);
    UpToAppend(SentOf(events, key), PendingAt(After(events).value, key), bound);
  }
}
