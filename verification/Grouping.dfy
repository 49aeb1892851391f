/**
 Grouping series by labels (pkg/query/executor.go).
 */
module Grouping {
  import opened Strings
  import opened SeriesKeys
  import opened Values

  /* ---- sorting a grouping list, which may repeat a name ---- */

  function Insert(x: string, s: seq<string>): (r: seq<string>)
    ensures multiset(r) == multiset(s) + multiset{x}
  {
    if s == [] then [x]
    else if Below(s[0], x) then
      assert s == [s[0]] + s[1..];
      [s[0]] + Insert(x, s[1..])
    else [x] + s
  }

  /** `sort.Strings`. */
  function Ordered(s: seq<string>): (r: seq<string>)
    ensures multiset(r) == multiset(s)
  {
    if s == [] then []
    else
      assert s == [s[0]] + s[1..];
      Insert(s[0], Ordered(s[1..]))
  }

  predicate NonDescending(s: seq<string>) {
    forall i, j :: 0 <= i < j < |s| ==> !Below(s[j], s[i])
  }

  lemma {:induction false} InsertOrders(x: string, s: seq<string>)
    requires NonDescending(s)
    ensures NonDescending(Insert(x, s))
  {
    var r := Insert(x, s);
    if s != [] {
      if Below(s[0], x) {
        InsertOrders(x, s[1..]);
        var rest := Insert(x, s[1..]);
        forall j | 0 <= j < |rest| ensures !Below(rest[j], s[0]) {
          assert rest[j] in multiset(rest);
          if rest[j] == x { BelowIrreflexive(s[0], x); }
          else {
            assert rest[j] in multiset(s[1..]);
            var k :| 0 <= k < |s[1..]| && s[1..][k] == rest[j];
            assert s[k + 1] == rest[j];
          }
        }
      } else {
        forall j | 0 <= j < |s| ensures !Below(s[j], x) {
          if j > 0 && Below(s[j], x) {
            BelowTotal(s[0], s[j]);
            if Below(s[0], s[j]) { BelowTransitive(s[0], s[j], x); }
          }
        }
      }
    }
  }

  lemma {:induction false} OrderedIsSorted(s: seq<string>)
    ensures NonDescending(Ordered(s))
  {
    if s != [] {
      OrderedIsSorted(s[1..]);
      InsertOrders(s[0], Ordered(s[1..]));
    }
  }

  /** `sort.Strings` on the list where it stands. */
  method SortStrings(a: array<string>)
    modifies a
    ensures a[..] == Ordered(old(a[..]))
  {
    var sorted := Ordered(a[..]);
    SameLength(sorted, a[..]);
    for i := 0 to a.Length
      invariant a[..i] == sorted[..i]
    {
      a[i] := sorted[i];
    }
    assert sorted[..|sorted|] == sorted && a[..a.Length] == a[..];
  }

  lemma SameLength(a: seq<string>, b: seq<string>)
    requires multiset(a) == multiset(b)
    ensures |a| == |b|
  {
    assert |multiset(a)| == |a| && |multiset(b)| == |b|;
  }

  lemma {:induction false} SortedIsOrdered(s: seq<string>)
    requires NonDescending(s)
    ensures Ordered(s) == s
  {
    if s != [] {
      assert s == [s[0]] + s[1..];
      SortedIsOrdered(s[1..]);
    }
  }

  /** Sorting again changes nothing. */
  lemma OrderedAgain(s: seq<string>)
    ensures Ordered(Ordered(s)) == Ordered(s)
  {
    OrderedIsSorted(s);
    SortedIsOrdered(Ordered(s));
  }

  /** The grouping list as given, or sorted by the first key of a `by` clause. */
  ghost predicate SameGrouping(now: seq<string>, given: seq<string>) { now == given || now == Ordered(given) }

  /* ---- group keys and group labels ---- */

  function Dropped(labels: Labels, grouping: seq<string>): Labels { map k | k in labels && k !in grouping :: labels[k] }

  function Restricted(labels: Labels, grouping: seq<string>): Labels { map k | k in labels && k in grouping :: labels[k] }

  function GroupLabels(labels: Labels, grouping: seq<string>, without: bool): Labels {
    if without then Dropped(labels, grouping) else Restricted(labels, grouping)
  }

  /** `by` keeps exactly the labels that are named, `without` exactly the others, values unchanged. */
  lemma GroupLabelsAre(labels: Labels, grouping: seq<string>)
    ensures forall k :: k in GroupLabels(labels, grouping, false) <==> k in labels && k in grouping
    ensures forall k :: k in GroupLabels(labels, grouping, true) <==> k in labels && k !in grouping
    ensures forall without, k :: k in GroupLabels(labels, grouping, without) ==> GroupLabels(labels, grouping, without)[k] == labels[k]
  {
  }

  /** Those of the names that are labels. */
  function Present(names: seq<string>, labels: Labels): (r: seq<string>)
    ensures forall i :: 0 <= i < |r| ==> r[i] in labels
  {
    if names == [] then []
    else if names[0] in labels then [names[0]] + Present(names[1..], labels)
    else Present(names[1..], labels)
  }

  ghost function GroupKey(labels: Labels, grouping: seq<string>, without: bool): string {
    if without then LabelKey(Dropped(labels, grouping)) else Heads(Present(Ordered(grouping), labels), labels)
  }

  lemma {:induction false} PresentAppend(ks: seq<string>, k: string, labels: Labels)
    ensures Present(ks + [k], labels) == if k in labels then Present(ks, labels) + [k] else Present(ks, labels)
  {
    if ks == [] {
      assert ([] + [k])[1..] == [];
    } else {
      assert (ks + [k])[1..] == ks[1..] + [k];
      PresentAppend(ks[1..], k, labels);
    }
  }

  /** A key is the same for the sorted list. */
  lemma SameKey(labels: Labels, now: seq<string>, given: seq<string>, without: bool)
    requires SameGrouping(now, given)
    ensures GroupKey(labels, now, without) == GroupKey(labels, given, without)
    ensures GroupLabels(labels, now, without) == GroupLabels(labels, given, without)
  {
    hide Ordered, Heads, LabelKey, Present;
    OrderedAgain(given);
    SameNames(given);
    assert Dropped(labels, now) == Dropped(labels, given);
  }

  /** `buildGroupKey`.  A `by` clause is sorted where it stands in the tree. */
  method BuildGroupKey(labels: Labels, grouping: array<string>, without: bool) returns (key: string)
    modifies grouping
    ensures key == GroupKey(labels, old(grouping[..]), without)
    ensures grouping[..] == if without then old(grouping[..]) else Ordered(old(grouping[..]))
  {
    if without {
      key := KeyWithout(labels, grouping[..]);
    } else {
      SortStrings(grouping);
      key := KeyBy(labels, grouping[..]);
    }
  }

  method KeyWithout(labels: Labels, grouping: seq<string>) returns (key: string)
    ensures key == LabelKey(Dropped(labels, grouping))
  {
    hide Heads;
    var rest := Dropped(labels, grouping);
    SortedKeys(rest);
    var keys := SortedList(set k | k in labels && k !in grouping);
    assert rest.Keys == set k | k in labels && k !in grouping;
    key := "";
    NoHeads(rest);
    for i := 0 to |keys|
      invariant key == Heads(keys[..i], rest)
    {
      HeadsAppend(keys[..i], keys[i], rest);
      assert keys[..i + 1] == keys[..i] + [keys[i]];
      key := key + keys[i] + "=" + labels[keys[i]] + ",";
    }
    assert keys[..|keys|] == keys;
  }

  /** The loop over the sorted names. */
  method KeyBy(labels: Labels, names: seq<string>) returns (key: string)
    ensures key == Heads(Present(names, labels), labels)
  {
    hide Heads, Present;
    key := "";
    NoHeads(labels);
    NonePresent(labels);
    for i := 0 to |names|
      invariant key == Heads(Present(names[..i], labels), labels)
    {
      PresentAppend(names[..i], names[i], labels);
      assert names[..i + 1] == names[..i] + [names[i]];
      if names[i] in labels {
        HeadsAppend(Present(names[..i], labels), names[i], labels);
        key := key + names[i] + "=" + labels[names[i]] + ",";
      }
    }
    assert names[..|names|] == names;
  }

  lemma NonePresent(labels: Labels)
    ensures Present([], labels) == []
  {
  }

  /** `extractGroupLabels`. */
  method ExtractGroupLabels(labels: Labels, grouping: seq<string>, without: bool) returns (result: Labels)
    ensures result == GroupLabels(labels, grouping, without)
  {
    if without { result := DropLabels(labels, grouping); } else { result := RestrictLabels(labels, grouping); }
  }

  method DropLabels(labels: Labels, grouping: seq<string>) returns (result: Labels)
    ensures result == Dropped(labels, grouping)
  {
    result := map[];
    var left := labels.Keys;
    while left != {}
      invariant left <= labels.Keys
      invariant result == map k | k in labels && k !in left && k !in grouping :: labels[k]
      decreases |left|
    {
      var k :| k in left;
      if k !in grouping { result := result[k := labels[k]]; }
      left := left - {k};
    }
  }

  method RestrictLabels(labels: Labels, grouping: seq<string>) returns (result: Labels)
    ensures result == Restricted(labels, grouping)
  {
    result := map[];
    for i := 0 to |grouping|
      invariant result == map k | k in labels && k in grouping[..i] :: labels[k]
    {
      var g := grouping[i];
      assert grouping[..i + 1] == grouping[..i] + [g];
      if g in labels { result := result[g := labels[g]]; }
    }
    assert grouping[..|grouping|] == grouping;
  }

  lemma {:induction false} PresentElements(names: seq<string>, labels: Labels, k: string)
    ensures k in Present(names, labels) <==> k in names && k in labels
  {
    if names != [] {
      PresentElements(names[1..], labels, k);
      assert names == [names[0]] + names[1..];
    }
  }

  lemma {:induction false} SamePresent(names: seq<string>, l1: Labels, l2: Labels)
    requires forall k :: k in names ==> (k in l1 <==> k in l2) && (k in l1 && k in l2 ==> l1[k] == l2[k])
    ensures Present(names, l1) == Present(names, l2)
    ensures Heads(Present(names, l1), l1) == Heads(Present(names, l2), l2)
  {
    if names != [] {
      assert names == [names[0]] + names[1..];
      SamePresent(names[1..], l1, l2);
    }
  }

  /** The label values a list of heads determines. */
  lemma {:induction false} HeadsDetermine(ks1: seq<string>, l1: Labels, ks2: seq<string>, l2: Labels)
    requires PlainLabels(l1) && PlainLabels(l2)
    requires forall i :: 0 <= i < |ks1| ==> ks1[i] in l1
    requires forall i :: 0 <= i < |ks2| ==> ks2[i] in l2
    requires Heads(ks1, l1) == Heads(ks2, l2)
    ensures (map k | k in l1 && k in Elements(ks1) :: l1[k]) == (map k | k in l2 && k in Elements(ks2) :: l2[k])
  {
    hide Heads, Tail, PlainLabels, Split, Pairs, Elements, ParsePairs;
    HeadsAreTail(ks1, l1);
    HeadsAreTail(ks2, l2);
    var t1, t2 := Tail(ks1, l1), Tail(ks2, l2);
    assert t1 == (t1 + ",")[..|t1 + ","| - 1] && t2 == (t2 + ",")[..|t2 + ","| - 1];
    SplitTail("", ks1, l1);
    SplitTail("", ks2, l2);
    assert ([""] + Pairs(ks1, l1))[1..] == Pairs(ks1, l1) && ([""] + Pairs(ks2, l2))[1..] == Pairs(ks2, l2);
    ParsePairsBack(ks1, l1);
    ParsePairsBack(ks2, l2);
  }

  /** Group keys agree exactly when the group labels do. */
  lemma GroupKeyInjective(l1: Labels, l2: Labels, grouping: seq<string>, without: bool)
    requires PlainLabels(l1) && PlainLabels(l2)
    ensures GroupKey(l1, grouping, without) == GroupKey(l2, grouping, without) <==>
            GroupLabels(l1, grouping, without) == GroupLabels(l2, grouping, without)
  {
    hide LabelKey, Heads;
    if without {
      LabelKeyInjective(Dropped(l1, grouping), Dropped(l2, grouping));
    } else {
      ByKeyInjective(l1, l2, grouping);
    }
  }

  lemma ByKeyInjective(l1: Labels, l2: Labels, grouping: seq<string>)
    requires PlainLabels(l1) && PlainLabels(l2)
    ensures GroupKey(l1, grouping, false) == GroupKey(l2, grouping, false) <==> Restricted(l1, grouping) == Restricted(l2, grouping)
  {
    hide Heads, PlainLabels, Ordered, Present;
    var names := Ordered(grouping);
    SameNames(grouping);
    var ks1, ks2 := Present(names, l1), Present(names, l2);
    if GroupKey(l1, grouping, false) == GroupKey(l2, grouping, false) {
      HeadsDetermine(ks1, l1, ks2, l2);
      PresentMap(names, l1, grouping);
      PresentMap(names, l2, grouping);
    }
    if Restricted(l1, grouping) == Restricted(l2, grouping) {
      forall k | k in names ensures (k in l1 <==> k in l2) && (k in l1 && k in l2 ==> l1[k] == l2[k]) {
        assert k in Restricted(l1, grouping) <==> k in Restricted(l2, grouping);
      }
      SamePresent(names, l1, l2);
    }
  }

  lemma SameNames(grouping: seq<string>)
    ensures forall k :: k in Ordered(grouping) <==> k in grouping
  {
    forall k ensures k in Ordered(grouping) <==> k in grouping {
      assert k in multiset(Ordered(grouping)) <==> k in multiset(grouping);
    }
  }

  lemma PresentMap(names: seq<string>, labels: Labels, grouping: seq<string>)
    requires forall k :: k in names <==> k in grouping
    ensures (map k | k in labels && k in Elements(Present(names, labels)) :: labels[k]) == Restricted(labels, grouping)
  {
    var ks := Present(names, labels);
    forall k | k in labels ensures k in Elements(ks) <==> k in grouping {
      PresentElements(names, labels, k);
    }
  }

  /* ---- groups ---- */

  datatype Group = Group(labels: Labels, series: seq<TimeSeries>)

  type GroupMap = map<string, Group>

  ghost function Groups(series: seq<TimeSeries>, grouping: seq<string>, without: bool): GroupMap {
    if series == [] then map[]
    else
      var groups, ts := Groups(series[..|series| - 1], grouping, without), series[|series| - 1];
      var key := GroupKey(ts.labels, grouping, without);
      if key in groups then groups[key := Group(groups[key].labels, groups[key].series + [ts])]
      else groups[key := Group(GroupLabels(ts.labels, grouping, without), [ts])]
  }

  /** The sorted list groups as the given one does: executing a query leaves its meaning alone. */
  lemma {:induction false} SameGroups(series: seq<TimeSeries>, now: seq<string>, given: seq<string>, without: bool)
    requires SameGrouping(now, given)
    ensures Groups(series, now, without) == Groups(series, given, without)
  {
    hide GroupKey, GroupLabels, SameGrouping;
    if series != [] {
      SameGroups(series[..|series| - 1], now, given, without);
      SameKey(series[|series| - 1].labels, now, given, without);
    }
  }

  /** The loop of `groupSeries`.  Sorting the `by` clause at the first series leaves the keys of
      the others what they would have been. */
  method GroupSeries(series: seq<TimeSeries>, grouping: array<string>, without: bool) returns (groups: GroupMap)
    modifies grouping
    ensures groups == Groups(series, old(grouping[..]), without)
    ensures grouping[..] == if without || series == [] then old(grouping[..]) else Ordered(old(grouping[..]))
  {
    hide GroupKey, GroupLabels, Ordered;
    groups := map[];
    ghost var given := grouping[..];
    for i := 0 to |series|
      invariant groups == Groups(series[..i], given, without)
      invariant grouping[..] == if without || i == 0 then given else Ordered(given)
    {
      var ts := series[i];
      SameKey(ts.labels, grouping[..], given, without);
      OrderedAgain(given);
      var key := BuildGroupKey(ts.labels, grouping, without);
      SameKey(ts.labels, grouping[..], given, without);
      assert series[..i + 1][..i] == series[..i];
      if key in groups {
        groups := groups[key := Group(groups[key].labels, groups[key].series + [ts])];
      } else {
        var labels := ExtractGroupLabels(ts.labels, grouping[..], without);
        groups := groups[key := Group(labels, [ts])];
      }
    }
    assert series[..|series|] == series;
  }

  /** The series of one key, in order. */
  ghost function Members(series: seq<TimeSeries>, grouping: seq<string>, without: bool, key: string): (r: seq<TimeSeries>)
    ensures forall i :: 0 <= i < |r| ==> GroupKey(r[i].labels, grouping, without) == key && r[i] in series
  {
    if series == [] then []
    else
      var rest, ts := Members(series[..|series| - 1], grouping, without, key), series[|series| - 1];
      if GroupKey(ts.labels, grouping, without) == key then rest + [ts] else rest
  }

  /** A group holds exactly the series of its key, and its labels are theirs. */
  lemma {:induction false} GroupsAre(series: seq<TimeSeries>, grouping: seq<string>, without: bool, key: string)
    ensures var groups, members := Groups(series, grouping, without), Members(series, grouping, without, key);
            && (key in groups <==> members != [])
            && (key in groups ==> groups[key].series == members
                                  && groups[key].labels == GroupLabels(members[0].labels, grouping, without))
  {
    hide GroupKey, GroupLabels;
    if series != [] { GroupsAre(series[..|series| - 1], grouping, without, key); }
  }

  /** Two series stand in the same group exactly when their group labels agree. */
  lemma {:induction false} SameGroup(series: seq<TimeSeries>, grouping: seq<string>, without: bool, i: nat, j: nat)
    requires i < |series| && j < |series|
    requires forall k :: 0 <= k < |series| ==> PlainLabels(series[k].labels)
    ensures (exists key :: series[i] in Members(series, grouping, without, key) && series[j] in Members(series, grouping, without, key))
            <==> GroupLabels(series[i].labels, grouping, without) == GroupLabels(series[j].labels, grouping, without)
  {
    hide GroupKey, GroupLabels, PlainLabels;
    var key := GroupKey(series[i].labels, grouping, without);
    GroupKeyInjective(series[i].labels, series[j].labels, grouping, without);
    MemberOf(series, grouping, without, i);
    MemberOf(series, grouping, without, j);
  }

  lemma {:induction false} MemberOf(series: seq<TimeSeries>, grouping: seq<string>, without: bool, i: nat)
    requires i < |series|
    ensures series[i] in Members(series, grouping, without, GroupKey(series[i].labels, grouping, without))
  {
    hide GroupKey;
    if i < |series| - 1 { MemberOf(series[..|series| - 1], grouping, without, i); }
  }

  /* ---- the partition ---- */

  /** The members of the keys, one key after the other. */
  ghost function Gathered(ks: seq<string>, series: seq<TimeSeries>, grouping: seq<string>, without: bool): seq<TimeSeries> {
    if ks == [] then []
    else Gathered(ks[..|ks| - 1], series, grouping, without) + Members(series, grouping, without, ks[|ks| - 1])
  }

  ghost predicate KeysOf(ks: seq<string>, groups: GroupMap) {
    && (forall i, j :: 0 <= i < j < |ks| ==> ks[i] != ks[j])
    && (forall k :: k in ks <==> k in groups)
  }

  lemma GatheredStep(ks: seq<string>, series: seq<TimeSeries>, grouping: seq<string>, without: bool)
    requires ks != []
    ensures multiset(Gathered(ks, series, grouping, without)) ==
            multiset(Gathered(ks[..|ks| - 1], series, grouping, without)) + multiset(Members(series, grouping, without, ks[|ks| - 1]))
  {
    hide Members, GroupKey;
  }

  lemma MembersStep(series: seq<TimeSeries>, grouping: seq<string>, without: bool, key: string)
    requires series != []
    ensures var front, ts := series[..|series| - 1], series[|series| - 1];
            multiset(Members(series, grouping, without, key)) ==
            multiset(Members(front, grouping, without, key)) +
            if GroupKey(ts.labels, grouping, without) == key then multiset{ts} else multiset{}
  {
    hide GroupKey;
  }

  lemma {:induction false} GatherOne(ks: seq<string>, series: seq<TimeSeries>, grouping: seq<string>, without: bool)
    requires series != [] && forall i, j :: 0 <= i < j < |ks| ==> ks[i] != ks[j]
    ensures var front, ts := series[..|series| - 1], series[|series| - 1];
            multiset(Gathered(ks, series, grouping, without)) ==
            multiset(Gathered(ks, front, grouping, without)) +
            if GroupKey(ts.labels, grouping, without) in ks then multiset{ts} else multiset{}
    decreases |ks|
  {
    hide GroupKey, Gathered, Members;
    var front := series[..|series| - 1];
    if ks == [] {
      NoneGathered(series, grouping, without);
      NoneGathered(front, grouping, without);
    } else {
      GatherOne(ks[..|ks| - 1], series, grouping, without);
      GatheredStep(ks, series, grouping, without);
      GatheredStep(ks, front, grouping, without);
      MembersStep(series, grouping, without, ks[|ks| - 1]);
      assert ks == ks[..|ks| - 1] + [ks[|ks| - 1]];
    }
  }

  lemma NoneGathered(series: seq<TimeSeries>, grouping: seq<string>, without: bool)
    ensures Gathered([], series, grouping, without) == []
  {
  }

  lemma {:induction false} GatherAll(ks: seq<string>, series: seq<TimeSeries>, grouping: seq<string>, without: bool)
    requires forall i, j :: 0 <= i < j < |ks| ==> ks[i] != ks[j]
    requires forall i :: 0 <= i < |series| ==> GroupKey(series[i].labels, grouping, without) in ks
    ensures multiset(Gathered(ks, series, grouping, without)) == multiset(series)
    decreases |series|
  {
    hide GroupKey, Gathered, Members;
    if series == [] {
      GatherNone(ks, grouping, without);
    } else {
      var front, ts := series[..|series| - 1], series[|series| - 1];
      forall i | 0 <= i < |front| ensures GroupKey(front[i].labels, grouping, without) in ks { assert front[i] == series[i]; }
      GatherAll(ks, front, grouping, without);
      GatherOne(ks, series, grouping, without);
      assert series == front + [ts];
    }
  }

  lemma {:induction false} GatherNone(ks: seq<string>, grouping: seq<string>, without: bool)
    ensures Gathered(ks, [], grouping, without) == []
  {
    if ks != [] { GatherNone(ks[..|ks| - 1], grouping, without); }
  }

  /** The groups are a partition: together they hold every series exactly as often as it was
      given. */
  lemma GroupsPartition(ks: seq<string>, series: seq<TimeSeries>, grouping: seq<string>, without: bool)
    requires KeysOf(ks, Groups(series, grouping, without))
    ensures multiset(Gathered(ks, series, grouping, without)) == multiset(series)
  {
    hide Groups, Gathered, GroupKey;
    forall i | 0 <= i < |series| ensures GroupKey(series[i].labels, grouping, without) in ks {
      MemberOf(series, grouping, without, i);
      GroupsAre(series, grouping, without, GroupKey(series[i].labels, grouping, without));
    }
    GatherAll(ks, series, grouping, without);
  }
}
