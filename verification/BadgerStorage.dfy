/**
 The Badger store (pkg/storage/badger/badger.go) over an ordered map from keys to metrics.
 A key holds one metric, so a write overwrites.  Each database transaction is one step.
 */
module BadgerStorage {
  import opened Instants
  import opened Integers
  import opened Options
  import opened Strings
  import opened Metrics
  import opened MemoryStorage
  import opened BadgerKey

  type Db = map<string, Metric>

  ghost function KeyOf(hash: Hash, m: Metric): string { MakeKey(hash, m.name, m.labels, m.timestamp) }

  /** Every metric stands under its own key. */
  ghost predicate Keyed(hash: Hash, db: Db) {
    forall k :: k in db ==> k == KeyOf(hash, db[k])
  }

  /** The database after writing the batch in order: the last metric of a key stays. */
  ghost function Put(hash: Hash, db: Db, batch: seq<Metric>): (r: Db)
    ensures Keyed(hash, db) ==> Keyed(hash, r)
  {
    if batch == [] then db
    else var m := batch[|batch| - 1]; Put(hash, db, batch[..|batch| - 1])[KeyOf(hash, m) := m]
  }

  /* ---- scans ---- */

  /** What iterating over `keys` finds under those that start with `prefix`. */
  function Scanned(keys: seq<string>, db: Db, prefix: string): seq<Metric>
    requires forall i :: 0 <= i < |keys| ==> keys[i] in db
  {
    if keys == [] then []
    else
      var rest, k := Scanned(keys[..|keys| - 1], db, prefix), keys[|keys| - 1];
      if prefix <= k then rest + [db[k]] else rest
  }

  ghost predicate KeyList(keys: seq<string>, db: Db) {
    Ascending(keys) && Elements(keys) == db.Keys
  }

  lemma KeysIn(keys: seq<string>, db: Db)
    requires KeyList(keys, db)
    ensures forall i :: 0 <= i < |keys| ==> keys[i] in db
  {
    forall i | 0 <= i < |keys| ensures keys[i] in db { assert keys[i] in Elements(keys); }
  }

  /** The whole contents in key order. */
  ghost function All(db: Db): seq<Metric> {
    KeysIn(Sorted(db.Keys), db);
    Scanned(Sorted(db.Keys), db, "")
  }

  /** The answer built from one prefix scan per name. */
  function ByNames(names: seq<string>, keys: seq<string>, db: Db, req: QueryRequest): seq<Metric>
    requires forall i :: 0 <= i < |keys| ==> keys[i] in db
  {
    if names == [] then []
    else
      ByNames(names[..|names| - 1], keys, db, req) + Select(Scanned(keys, db, Prefix(names[|names| - 1])), req)
  }

  /** What a query returns before the limit is applied. */
  ghost function Answer(db: Db, req: QueryRequest): seq<Metric> {
    KeysIn(Sorted(db.Keys), db);
    if req.names == [] then Select(All(db), req) else ByNames(req.names, Sorted(db.Keys), db, req)
  }

  /** Keys with a prefix stand together: once past them, none follows. */
  lemma {:induction false} PastPrefix(p: string, a: string, b: string)
    requires !Below(a, p) && !(p <= a) && Below(a, b)
    ensures !(p <= b)
  {
    if p <= b {
      if a != [] && p != [] && a[0] == p[0] {
        assert (p <= a <==> p[1..] <= a[1..]) && p[1..] <= b[1..];
        PastPrefix(p[1..], a[1..], b[1..]);
      }
    }
  }

  lemma {:induction false} BelowHasNoPrefix(p: string, a: string)
    requires Below(a, p)
    ensures !(p <= a)
  {
    if a != [] && p <= a { BelowHasNoPrefix(p[1..], a[1..]); }
  }

  lemma {:induction false} ScannedNone(keys: seq<string>, i: nat, db: Db, prefix: string)
    requires forall j :: 0 <= j < |keys| ==> keys[j] in db
    requires i <= |keys| && forall j :: i <= j < |keys| ==> !(prefix <= keys[j])
    ensures Scanned(keys, db, prefix) == Scanned(keys[..i], db, prefix)
    decreases |keys|
  {
    if i < |keys| {
      ScannedNone(keys[..|keys| - 1], i, db, prefix);
      assert keys[..|keys| - 1][..i] == keys[..i];
    } else {
      assert keys[..i] == keys;
    }
  }

  lemma {:induction false} ScannedGrows(keys: seq<string>, i: nat, db: Db, prefix: string)
    requires forall j :: 0 <= j < |keys| ==> keys[j] in db
    requires i <= |keys|
    ensures Scanned(keys[..i], db, prefix) <= Scanned(keys, db, prefix)
    decreases |keys|
  {
    if i < |keys| {
      ScannedGrows(keys[..|keys| - 1], i, db, prefix);
      assert keys[..|keys| - 1][..i] == keys[..i];
    } else {
      assert keys[..i] == keys;
    }
  }

  lemma SelectGrows(a: seq<Metric>, b: seq<Metric>, req: QueryRequest)
    requires a <= b
    ensures Select(a, req) <= Select(b, req)
  {
    assert b == a + b[|a|..];
    SelectAppend(a, b[|a|..], req);
  }

  lemma LimitReached(found: seq<Metric>, all: seq<Metric>, limit: nat)
    requires found <= all && 0 < limit == |found|
    ensures found == Limited(all, limit)
  {
  }

  lemma ScannedStep(keys: seq<string>, i: nat, db: Db, prefix: string)
    requires forall j :: 0 <= j < |keys| ==> keys[j] in db
    requires i < |keys|
    ensures Scanned(keys[..i + 1], db, prefix) ==
            if prefix <= keys[i] then Scanned(keys[..i], db, prefix) + [db[keys[i]]] else Scanned(keys[..i], db, prefix)
  {
    assert keys[..i + 1][..i] == keys[..i];
  }

  lemma SelectStep(ms: seq<Metric>, m: Metric, req: QueryRequest)
    ensures Select(ms + [m], req) == if Matches(m, req) then Select(ms, req) + [m] else Select(ms, req)
  {
    assert (ms + [m])[..|ms|] == ms;
  }

  /** One iterator: seek to the prefix, go on while keys have it, stop at the limit. */
  method ScanPrefix(keys: seq<string>, db: Db, prefix: string, req: QueryRequest, found: seq<Metric>)
      returns (results: seq<Metric>)
    requires Ascending(keys) && forall i :: 0 <= i < |keys| ==> keys[i] in db
    requires req.limit > 0 ==> |found| < req.limit
    ensures results == Limited(found + Select(Scanned(keys, db, prefix), req), req.limit)
  {
    hide Scanned, Select, Matches, Below;
    var i := 0;
    ScannedEmpty(db, prefix);
    while i < |keys| && Below(keys[i], prefix)
      invariant 0 <= i <= |keys| && Scanned(keys[..i], db, prefix) == []
    {
      BelowHasNoPrefix(prefix, keys[i]);
      ScannedStep(keys, i, db, prefix);
      i := i + 1;
    }
    ghost var first := i;
    results := found;
    SelectEmpty(req);
    while i < |keys| && prefix <= keys[i]
      invariant first <= i <= |keys|
      invariant i == first ==> i == |keys| || !Below(keys[i], prefix)
      invariant i > first ==> prefix <= keys[i - 1]
      invariant results == found + Select(Scanned(keys[..i], db, prefix), req)
      invariant req.limit > 0 ==> |results| < req.limit
    {
      var m := db[keys[i]];
      ScannedStep(keys, i, db, prefix);
      SelectStep(Scanned(keys[..i], db, prefix), m, req);
      if Matches(m, req) { results := results + [m]; }
      i := i + 1;
      if req.limit > 0 && |results| >= req.limit {
        ScannedGrows(keys, i, db, prefix);
        SelectGrows(Scanned(keys[..i], db, prefix), Scanned(keys, db, prefix), req);
        LimitReached(results, found + Select(Scanned(keys, db, prefix), req), req.limit);
        return;
      }
    }
    NoneBehind(keys, i, first, prefix);
    ScannedNone(keys, i, db, prefix);
  }

  lemma NoneBehind(keys: seq<string>, i: nat, first: nat, prefix: string)
    requires Ascending(keys) && first <= i <= |keys|
    requires i < |keys| ==> !(prefix <= keys[i])
    requires i == first && i < |keys| ==> !Below(keys[i], prefix)
    requires i > first ==> prefix <= keys[i - 1]
    ensures forall j :: i <= j < |keys| ==> !(prefix <= keys[j])
  {
    if i < |keys| {
      if i > first { PrefixNotAbove(prefix, keys[i - 1], keys[i]); }
      forall j | i <= j < |keys| ensures !(prefix <= keys[j]) {
        if j > i { PastPrefix(prefix, keys[i], keys[j]); }
      }
    }
  }

  lemma {:induction false} PrefixNotAbove(p: string, a: string, b: string)
    requires p <= a && Below(a, b)
    ensures !Below(b, p)
  {
    if p != [] && a[0] == b[0] {
      PrefixNotAbove(p[1..], a[1..], b[1..]);
    }
  }

  lemma ScannedEmpty(db: Db, prefix: string)
    ensures Scanned([], db, prefix) == []
  {
  }

  lemma SelectEmpty(req: QueryRequest)
    ensures Select([], req) == []
  {
  }

  /* ---- the scan agrees with the filter ---- */

  ghost predicate ShortNames(db: Db) { forall k :: k in db ==> |db[k].name| < 65536 }

  lemma {:induction false} ScannedCounts(hash: Hash, keys: seq<string>, db: Db, name: string, m: Metric)
    requires Keyed(hash, db) && ShortNames(db) && |name| < 65536
    requires forall i :: 0 <= i < |keys| ==> keys[i] in db
    ensures multiset(Scanned(keys, db, Prefix(name)))[m] ==
            if m.name == name then multiset(Scanned(keys, db, ""))[m] else 0
  {
    hide Prefix, MakeKey;
    if keys != [] {
      ScannedCounts(hash, keys[..|keys| - 1], db, name, m);
      var k := keys[|keys| - 1];
      var stored := db[k];
      PrefixIsName(hash, stored.name, stored.labels, stored.timestamp, name);
    }
  }

  /** How often a name is asked for. */
  function Occurrences(names: seq<string>, name: string): nat {
    if names == [] then 0 else Occurrences(names[..|names| - 1], name) + if names[|names| - 1] == name then 1 else 0
  }

  lemma {:induction false} OccursOnce(names: seq<string>, name: string)
    requires forall i, j :: 0 <= i < j < |names| ==> names[i] != names[j]
    ensures Occurrences(names, name) == if name in names then 1 else 0
  {
    if names != [] {
      OccursOnce(names[..|names| - 1], name);
      assert names == names[..|names| - 1] + [names[|names| - 1]];
    }
  }

  lemma {:induction false} ByNamesCounts(hash: Hash, names: seq<string>, keys: seq<string>, db: Db, req: QueryRequest, m: Metric)
    requires Keyed(hash, db) && ShortNames(db)
    requires forall i :: 0 <= i < |names| ==> |names[i]| < 65536
    requires forall i :: 0 <= i < |keys| ==> keys[i] in db
    ensures multiset(ByNames(names, keys, db, req))[m] ==
            if Matches(m, req) then Occurrences(names, m.name) * multiset(Scanned(keys, db, ""))[m] else 0
    decreases |names|
  {
    hide Prefix, MakeKey, Scanned, Select, Matches;
    if names != [] {
      var front, name := names[..|names| - 1], names[|names| - 1];
      ByNamesCounts(hash, front, keys, db, req, m);
      SelectCounts(Scanned(keys, db, Prefix(name)), req, m);
      ScannedCounts(hash, keys, db, name, m);
      OnceMore(Occurrences(front, m.name), multiset(Scanned(keys, db, ""))[m]);
    }
  }

  lemma OnceMore(n: nat, k: nat)
    ensures (n + 1) * k == n * k + k
  {
  }

  /** For any names below 65536 bytes the prefix scans find each metric that the filter selects
      from a full scan as often as its name is asked for. */
  lemma {:induction false} PrefixScanCounts(hash: Hash, db: Db, req: QueryRequest, m: Metric)
    requires Keyed(hash, db) && ShortNames(db) && req.names != []
    requires forall i :: 0 <= i < |req.names| ==> |req.names[i]| < 65536
    ensures multiset(Answer(db, req))[m] == Occurrences(req.names, m.name) * multiset(Select(All(db), req))[m]
  {
    hide Select, ByNames, Scanned, Matches;
    var keys := Sorted(db.Keys);
    KeysIn(keys, db);
    ByNamesCounts(hash, req.names, keys, db, req, m);
    SelectCounts(All(db), req, m);
  }

  /** The index agrees with the full scan: for distinct names the prefix scans find exactly the
      metrics the filter selects, each as often. */
  lemma {:induction false} PrefixScanAgrees(hash: Hash, db: Db, req: QueryRequest)
    requires Keyed(hash, db) && ShortNames(db)
    requires forall i :: 0 <= i < |req.names| ==> |req.names[i]| < 65536
    requires forall i, j :: 0 <= i < j < |req.names| ==> req.names[i] != req.names[j]
    ensures multiset(Answer(db, req)) == multiset(Select(All(db), req))
  {
    hide Select, ByNames, Scanned, Occurrences;
    if req.names != [] {
      forall m: Metric ensures multiset(Answer(db, req))[m] == multiset(Select(All(db), req))[m] {
        PrefixScanCounts(hash, db, req, m);
        OccursOnce(req.names, m.name);
        if m.name !in req.names { SelectedNamed(db, req, m); }
      }
    }
  }

  lemma SelectedNamed(db: Db, req: QueryRequest, m: Metric)
    requires req.names != [] && m.name !in req.names
    ensures multiset(Select(All(db), req))[m] == 0
  {
    SelectCounts(All(db), req, m);
  }

  /* ---- filters over the contents ---- */

  function Filter(ms: seq<Metric>, f: Metric -> bool): seq<Metric> {
    if ms == [] then []
    else
      var rest := Filter(ms[..|ms| - 1], f);
      if f(ms[|ms| - 1]) then rest + [ms[|ms| - 1]] else rest
  }

  lemma {:induction false} SelectIsFilter(ms: seq<Metric>, req: QueryRequest)
    ensures Select(ms, req) == Filter(ms, m => Matches(m, req))
  {
    if ms != [] { SelectIsFilter(ms[..|ms| - 1], req); }
  }

  lemma {:induction false} RemainingIsFilter(ms: seq<Metric>, before: int, resolution: Option<string>)
    ensures Remaining(ms, before, resolution) == Filter(ms, m => Stays(m, before, resolution))
  {
    if ms != [] { RemainingIsFilter(ms[..|ms| - 1], before, resolution); }
  }

  lemma {:induction false} FilterTwice(ms: seq<Metric>, f: Metric -> bool, g: Metric -> bool)
    ensures Filter(Filter(ms, f), g) == Filter(Filter(ms, g), f)
  {
    if ms != [] { FilterTwice(ms[..|ms| - 1], f, g); }
  }

  lemma {:induction false} FilterAll(ms: seq<Metric>, f: Metric -> bool)
    requires forall i :: 0 <= i < |ms| ==> f(ms[i])
    ensures Filter(ms, f) == ms
  {
    if ms != [] { FilterAll(ms[..|ms| - 1], f); }
  }

  /** The keys whose metric passes. */
  function Passing(keys: seq<string>, db: Db, f: Metric -> bool): (r: seq<string>)
    requires forall i :: 0 <= i < |keys| ==> keys[i] in db
    ensures forall i :: 0 <= i < |r| ==> r[i] in db && f(db[r[i]]) && r[i] in keys
  {
    if keys == [] then []
    else
      var rest, k := Passing(keys[..|keys| - 1], db, f), keys[|keys| - 1];
      if f(db[k]) then rest + [k] else rest
  }

  lemma {:induction false} PassingAscends(keys: seq<string>, db: Db, f: Metric -> bool)
    requires Ascending(keys)
    requires forall i :: 0 <= i < |keys| ==> keys[i] in db
    ensures Ascending(Passing(keys, db, f))
  {
    if keys != [] {
      var front := keys[..|keys| - 1];
      PassingAscends(front, db, f);
      var rest := Passing(front, db, f);
      forall i | 0 <= i < |rest| ensures Below(rest[i], keys[|keys| - 1]) {
        var j :| 0 <= j < |front| && front[j] == rest[i];
        assert keys[j] == rest[i];
      }
    }
  }

  lemma {:induction false} PassingComplete(keys: seq<string>, db: Db, f: Metric -> bool, k: string)
    requires forall i :: 0 <= i < |keys| ==> keys[i] in db
    ensures k in Passing(keys, db, f) <==> k in keys && f(db[k])
  {
    if keys != [] {
      PassingComplete(keys[..|keys| - 1], db, f, k);
      assert keys == keys[..|keys| - 1] + [keys[|keys| - 1]];
    }
  }

  lemma {:induction false} FilterOfScan(keys: seq<string>, db: Db, f: Metric -> bool)
    requires forall i :: 0 <= i < |keys| ==> keys[i] in db
    ensures Filter(Scanned(keys, db, ""), f) == Scanned(Passing(keys, db, f), db, "")
  {
    if keys != [] {
      var front, k := keys[..|keys| - 1], keys[|keys| - 1];
      FilterOfScan(front, db, f);
      var scanned := Scanned(front, db, "");
      assert (scanned + [db[k]])[..|scanned|] == scanned;
      var rest := Passing(front, db, f);
      assert (rest + [k])[..|rest|] == rest;
    }
  }

  lemma {:induction false} ScanSame(keys: seq<string>, a: Db, b: Db)
    requires forall i :: 0 <= i < |keys| ==> keys[i] in a && keys[i] in b && a[keys[i]] == b[keys[i]]
    ensures Scanned(keys, a, "") == Scanned(keys, b, "")
  {
    if keys != [] { ScanSame(keys[..|keys| - 1], a, b); }
  }

  /** The two databases agree on the metrics that pass. */
  ghost predicate AgreeOn(a: Db, b: Db, f: Metric -> bool) {
    forall k :: (k in a && f(a[k]) <==> k in b && f(b[k])) && (k in a && k in b && f(a[k]) ==> a[k] == b[k])
  }

  lemma FilterAgrees(a: Db, b: Db, f: Metric -> bool)
    requires AgreeOn(a, b, f)
    ensures Filter(All(a), f) == Filter(All(b), f)
  {
    hide Scanned, Below;
    var x, y := Sorted(a.Keys), Sorted(b.Keys);
    KeysIn(x, a);
    KeysIn(y, b);
    FilterOfScan(x, a, f);
    FilterOfScan(y, b, f);
    PassingAscends(x, a, f);
    PassingAscends(y, b, f);
    var p, q := Passing(x, a, f), Passing(y, b, f);
    forall k ensures k in p <==> k in q {
      PassingComplete(x, a, f, k);
      PassingComplete(y, b, f, k);
      InElements(x, k);
      InElements(y, k);
    }
    SameElements(p, q);
    AscendingUnique(p, q);
    ScanSame(p, a, b);
  }

  lemma InElements(s: seq<string>, k: string)
    ensures k in s <==> k in Elements(s)
  {
  }

  lemma SameElements(p: seq<string>, q: seq<string>)
    requires forall k :: k in p <==> k in q
    ensures Elements(p) == Elements(q)
  {
    forall k ensures k in Elements(p) <==> k in Elements(q) {
      InElements(p, k);
      InElements(q, k);
    }
  }

  lemma {:induction false} ScannedAre(keys: seq<string>, db: Db, i: nat)
    requires forall i :: 0 <= i < |keys| ==> keys[i] in db
    requires i < |Scanned(keys, db, "")|
    ensures exists k :: k in db && db[k] == Scanned(keys, db, "")[i]
  {
    var front, k := keys[..|keys| - 1], keys[|keys| - 1];
    if i < |Scanned(front, db, "")| { ScannedAre(front, db, i); } else { assert db[k] == Scanned(keys, db, "")[i]; }
  }

  /* ---- deletion ---- */

  /** Deletion trusts the timestamp in the key. */
  predicate Readable(k: string) { BadgerKey.ParseKey(k, ZERO_TIME).Some? }

  /** The timestamp in a key. */
  function KeyTime(k: string): int
    requires Readable(k)
  {
    BadgerKey.ParseKey(k, ZERO_TIME).value.1
  }

  /** A deletion leaves the metric under a key exactly when the timestamp in the key is not before
      the given one or a resolution is given that is not the metric's. */
  lemma KeysLeft(db: Db, before: int, resolution: Option<string>)
    requires forall k :: k in db ==> Readable(k)
    ensures forall k :: k in Kept(db, before, resolution) <==>
              k in db && (KeyTime(k) >= before || (resolution.Some? && Lookup(db[k].labels, "__resolution__") != resolution.value))
    ensures forall k :: k in Kept(db, before, resolution) ==> Kept(db, before, resolution)[k] == db[k]
  {
    hide BadgerKey.ParseKey;
  }

  /** For names of at most 65517 bytes that is the metric's own time, up to wrapping. */
  lemma KeyTimeIs(hash: Hash, db: Db, k: string)
    requires Keyed(hash, db) && CodecNames(db) && k in db
    ensures Readable(k) && KeyTime(k) == Nanos(db[k].timestamp)
  {
    hide BadgerKey.ParseKey, MakeKey, Nanos;
    var m := db[k];
    ParseMadeKey(hash, m.name, m.labels, m.timestamp, ZERO_TIME);
  }

  predicate Survives(k: string, m: Metric, before: int, resolution: Option<string>)
    requires Readable(k)
  {
    BadgerKey.ParseKey(k, ZERO_TIME).value.1 >= before || (resolution.Some? && Resolution(m) != resolution.value)
  }

  function Kept(db: Db, before: int, resolution: Option<string>): Db
    requires forall k :: k in db ==> Readable(k)
  {
    map k | k in db && Survives(k, db[k], before, resolution) :: db[k]
  }

  ghost predicate CodecNames(db: Db) { forall k :: k in db ==> |db[k].name| <= 65517 }

  ghost predicate CodecTimes(db: Db) { forall k :: k in db ==> IsInt64(db[k].timestamp) }

  lemma KeyTimes(hash: Hash, db: Db, k: string, before: int, resolution: Option<string>)
    requires Keyed(hash, db) && CodecNames(db) && k in db
    ensures Readable(k)
    ensures Survives(k, db[k], before, resolution) <==> Stays(db[k].(timestamp := Nanos(db[k].timestamp)), before, resolution)
  {
    hide BadgerKey.ParseKey, MakeKey, Nanos;
    var m := db[k];
    ParseMadeKey(hash, m.name, m.labels, m.timestamp, ZERO_TIME);
  }

  /** Deleting by the key's timestamp leaves exactly what the reference store's deletion leaves
      of the contents, in the same order. */
  ghost predicate SameDeletion(db: Db, before: int, resolution: Option<string>) {
    (forall k :: k in db ==> Readable(k)) && All(Kept(db, before, resolution)) == Remaining(All(db), before, resolution)
  }

  lemma {:induction false} DeleteAgrees(hash: Hash, db: Db, before: int, resolution: Option<string>)
    requires Keyed(hash, db) && CodecNames(db) && CodecTimes(db)
    ensures SameDeletion(db, before, resolution)
  {
    hide Survives, Readable, Stays, MakeKey, Scanned, Remaining;
    forall k | k in db ensures Readable(k) && (Survives(k, db[k], before, resolution) <==> Stays(db[k], before, resolution)) {
      KeyTimes(hash, db, k, before, resolution);
      assert db[k].(timestamp := Nanos(db[k].timestamp)) == db[k];
    }
    var f := (m: Metric) => Stays(m, before, resolution);
    var after := Kept(db, before, resolution);
    assert AgreeOn(db, after, f);
    FilterAgrees(db, after, f);
    RemainingIsFilter(All(db), before, resolution);
    KeysIn(Sorted(after.Keys), after);
    forall i | 0 <= i < |All(after)| ensures f(All(after)[i]) { ScannedAre(Sorted(after.Keys), after, i); }
    FilterAll(All(after), f);
  }

  lemma {:induction false} ScannedHas(keys: seq<string>, db: Db, k: string)
    requires forall i :: 0 <= i < |keys| ==> keys[i] in db
    requires k in keys
    ensures db[k] in Scanned(keys, db, "")
  {
    var front, last := keys[..|keys| - 1], keys[|keys| - 1];
    if k != last {
      assert keys == front + [last];
      ScannedHas(front, db, k);
    }
  }

  /** The contents are the metrics under the keys. */
  lemma AllHolds(db: Db, m: Metric)
    ensures m in All(db) <==> m in db.Values
  {
    hide Scanned, Below;
    var keys := Sorted(db.Keys);
    KeysIn(keys, db);
    AllKeys(keys, db);
    if m in db.Values {
      var k :| k in db && db[k] == m;
      ScannedHas(keys, db, k);
    }
    if m in All(db) {
      var i :| 0 <= i < |All(db)| && All(db)[i] == m;
      ScannedAre(keys, db, i);
    }
  }

  lemma RemainingHolds(ms: seq<Metric>, before: int, resolution: Option<string>, m: Metric)
    ensures m in Remaining(ms, before, resolution) <==> m in ms && Stays(m, before, resolution)
  {
    RemainingCounts(ms, before, resolution, m);
    assert m in multiset(Remaining(ms, before, resolution)) <==> m in Remaining(ms, before, resolution);
    assert m in multiset(ms) <==> m in ms;
  }

  /** Whether a deletion without resolution leaves a metric: by the key, and by the reference. */
  lemma LeftBehind(hash: Hash, db: Db, k: string, before: int)
    requires Keyed(hash, db) && CodecNames(db) && k in db && forall j :: j in db ==> Readable(j)
    ensures db[k] in All(Kept(db, before, None)) <==> Nanos(db[k].timestamp) >= before
    ensures db[k] in Remaining(All(db), before, None) <==> db[k].timestamp >= before
  {
    hide Nanos, Survives, Readable, Remaining, Scanned, Below, KeyOf;
    var m, after := db[k], Kept(db, before, None);
    KeyTimes(hash, db, k, before, None);
    AllHolds(db, m);
    AllHolds(after, m);
    RemainingHolds(All(db), before, None, m);
    assert m in after.Values <==> k in after;
  }

  /** A timestamp outside the int64 range goes by what is left of it in the key. */
  lemma WrappedTimeFails(hash: Hash, db: Db, k: string)
    requires Keyed(hash, db) && CodecNames(db) && k in db && !IsInt64(db[k].timestamp)
    ensures exists before :: !SameDeletion(db, before, None)
  {
    var t, w := db[k].timestamp, Nanos(db[k].timestamp);
    var before := if t < w then w else t;
    hide Nanos, Keyed, CodecNames, Kept, All, Remaining, Readable;
    if forall j :: j in db ==> Readable(j) { LeftBehind(hash, db, k, before); }
    assert !SameDeletion(db, before, None);
  }

  /** For names of at most 65517 bytes every deletion agrees with the reference store's exactly
      when all timestamps lie in the int64 range. */
  lemma {:induction false} DeletionsAgreeExactly(hash: Hash, db: Db)
    requires Keyed(hash, db) && CodecNames(db)
    ensures (forall before, resolution :: SameDeletion(db, before, resolution)) <==> CodecTimes(db)
  {
    hide SameDeletion, Keyed, CodecNames;
    if CodecTimes(db) {
      forall before, resolution ensures SameDeletion(db, before, resolution) { DeleteAgrees(hash, db, before, resolution); }
    } else {
      var k :| k in db && !IsInt64(db[k].timestamp);
      WrappedTimeFails(hash, db, k);
    }
  }

  class Storage {
    var db: Db
    const hash: Hash

    ghost predicate Valid()
      reads this
    {
      Keyed(hash, db)
    }

    constructor (hash: Hash)
      ensures Valid() && db == map[] && this.hash == hash
    {
      this.hash, db := hash, map[];
    }

    /** The update transaction of `Write`. */
    method Write(batch: seq<Metric>)
      requires Valid()
      modifies this
      ensures Valid() && db == Put(hash, old(db), batch)
    {
      hide MakeKey;
      ghost var before := db;
      for i := 0 to |batch|
        invariant Valid() && db == Put(hash, before, batch[..i])
      {
        var m := batch[i];
        var key := FillKey(hash, m.name, m.labels, m.timestamp);
        assert batch[..i + 1][..i] == batch[..i];
        db := db[key[..] := m];
      }
      assert batch[..|batch|] == batch;
    }

    method Query(req: QueryRequest) returns (results: seq<Metric>)
      ensures results == Limited(Answer(db, req), req.limit)
    {
      hide Scanned, Select, Prefix, Below;
      var keys := SortedList(db.Keys);
      KeysIn(keys, db);
      results := [];
      if |req.names| > 0 {
        for i := 0 to |req.names|
          invariant results == ByNames(req.names[..i], keys, db, req)
          invariant req.limit > 0 ==> |results| < req.limit
        {
          ghost var sofar := results;
          results := ScanPrefix(keys, db, Prefix(req.names[i]), req, results);
          assert req.names[..i + 1][..i] == req.names[..i];
          if req.limit > 0 && |results| >= req.limit {
            ByNamesGrows(req.names, i + 1, keys, db, req);
            return;
          }
        }
        assert req.names[..|req.names|] == req.names;
      } else {
        results := ScanPrefix(keys, db, "", req, []);
        assert [] + Select(All(db), req) == Select(All(db), req);
      }
    }

    /** The update transaction of `Delete`; `!ok` when parsing a key panics. */
    method Delete(before: int, resolution: Option<string>) returns (ok: bool)
      requires Valid()
      modifies this
      ensures ok <==> forall k :: k in old(db) ==> Readable(k)
      ensures ok ==> db == Kept(old(db), before, resolution)
      ensures ok ==> forall k :: k in db <==>
                k in old(db) &&
                (KeyTime(k) >= before || (resolution.Some? && Lookup(old(db)[k].labels, "__resolution__") != resolution.value))
      ensures ok ==> forall k :: k in db ==> db[k] == old(db)[k]
      ensures !ok ==> db == old(db)
      ensures Valid()
    {
      hide Keyed, Readable, Survives, Below;
      var keys := SortedList(db.Keys);
      KeysIn(keys, db);
      AllKeys(keys, db);
      var dead;
      ok, dead := KeysToDelete(keys, db, before, resolution);
      if !ok { return; }
      KeptKeyed(hash, db, before, resolution);
      KeysLeft(db, before, resolution);
      db := map k | k in db && k !in dead :: db[k];
    }
  }

  lemma AllKeys(keys: seq<string>, db: Db)
    requires KeyList(keys, db)
    ensures forall k :: k in db ==> k in keys
  {
    forall k | k in db ensures k in keys { InElements(keys, k); }
  }

  lemma KeptKeyed(hash: Hash, db: Db, before: int, resolution: Option<string>)
    requires Keyed(hash, db) && forall k :: k in db ==> Readable(k)
    ensures Keyed(hash, Kept(db, before, resolution))
  {
  }

  /** The iteration that collects the keys to delete, parsing each. */
  method KeysToDelete(keys: seq<string>, db: Db, before: int, resolution: Option<string>)
      returns (ok: bool, dead: set<string>)
    requires Ascending(keys) && forall i :: 0 <= i < |keys| ==> keys[i] in db
    ensures ok <==> forall i :: 0 <= i < |keys| ==> Readable(keys[i])
    ensures ok ==> forall k :: k in dead <==> k in keys && !Survives(k, db[k], before, resolution)
  {
    hide BadgerKey.ParseKey, Below, Ascending;
    dead := {};
    for i := 0 to |keys|
      invariant forall j :: 0 <= j < i ==> Readable(keys[j])
      invariant forall k :: k in dead <==> k in keys[..i] && !Survives(k, db[k], before, resolution)
    {
      var k := keys[i];
      FreshKey(keys, i);
      assert keys[..i + 1] == keys[..i] + [k];
      var parsed := BadgerKey.ParseKey(k, ZERO_TIME);
      if parsed == None { return false, dead; }
      if parsed.value.1 >= before { continue; }
      if resolution.Some? && Resolution(db[k]) != resolution.value { continue; }
      dead := dead + {k};
    }
    assert keys[..|keys|] == keys;
    ok := true;
  }

  lemma FreshKey(keys: seq<string>, i: nat)
    requires Ascending(keys) && i < |keys|
    ensures keys[i] !in keys[..i]
  {
    forall j | 0 <= j < i ensures keys[j] != keys[i] { BelowIrreflexive(keys[j], keys[i]); }
  }

  lemma {:induction false} ByNamesGrows(names: seq<string>, i: nat, keys: seq<string>, db: Db, req: QueryRequest)
    requires forall i :: 0 <= i < |keys| ==> keys[i] in db
    requires i <= |names|
    ensures ByNames(names[..i], keys, db, req) <= ByNames(names, keys, db, req)
    decreases |names|
  {
    if i < |names| {
      ByNamesGrows(names[..|names| - 1], i, keys, db, req);
      assert names[..|names| - 1][..i] == names[..i];
    } else {
      assert names[..i] == names;
    }
  }
}
