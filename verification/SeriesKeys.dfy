/**
 The text keys by which series are grouped: the storage and dashboard key
 (pkg/storage/badger/badger.go, pkg/storage/memory/memory.go, pkg/ingest/dashboard.go),
 the ingest key (pkg/ingest/cardinality.go), the executor key (pkg/query/executor.go) and
 the aggregate key (pkg/compaction/compactor.go).  They are decoded again, so on
 separator-free names and labels grouping by key is grouping by series.
 */
module SeriesKeys {
  import opened Strings
  import opened Calendar

  type Labels = map<string, string>

  /** `,k=v` for the keys of `ks` in that order. */
  function Tail(ks: seq<string>, labels: Labels): string
    requires forall i :: 0 <= i < |ks| ==> ks[i] in labels
  {
    if ks == [] then "" else "," + (ks[0] + "=" + labels[ks[0]]) + Tail(ks[1..], labels)
  }

  lemma SortedKeys(labels: Labels)
    ensures forall i :: 0 <= i < |Sorted(labels.Keys)| ==> Sorted(labels.Keys)[i] in labels
  {
    var ks := Sorted(labels.Keys);
    forall i | 0 <= i < |ks| ensures ks[i] in labels { assert ks[i] in Elements(ks); }
  }

  ghost function LabelTail(labels: Labels): string {
    SortedKeys(labels);
    Tail(Sorted(labels.Keys), labels)
  }

  ghost function SeriesKey(name: string, labels: Labels): string { name + LabelTail(labels) }

  lemma {:induction false} TailAppend(a: seq<string>, b: seq<string>, labels: Labels)
    requires forall i :: 0 <= i < |a + b| ==> (a + b)[i] in labels
    requires forall i :: 0 <= i < |a| ==> a[i] in labels
    requires forall i :: 0 <= i < |b| ==> b[i] in labels
    ensures Tail(a + b, labels) == Tail(a, labels) + Tail(b, labels)
    decreases |a|
  {
    if a == [] {
      assert a + b == b;
    } else {
      assert (a + b)[1..] == a[1..] + b;
      TailAppend(a[1..], b, labels);
    }
  }

  lemma OnePairMore(name: string, keys: seq<string>, i: nat, labels: Labels)
    requires i < |keys| && forall j :: 0 <= j < |keys| ==> keys[j] in labels
    ensures name + Tail(keys[..i + 1], labels) == name + Tail(keys[..i], labels) + "," + keys[i] + "=" + labels[keys[i]]
  {
    assert keys[..i + 1] == keys[..i] + [keys[i]];
    TailAppend(keys[..i], [keys[i]], labels);
    assert Tail([keys[i]][1..], labels) == "";
    assert Tail([keys[i]], labels) == "," + (keys[i] + "=" + labels[keys[i]]);
  }

  /** The loop that appends the pairs. */
  method AppendPairs(name: string, keys: seq<string>, labels: Labels) returns (key: string)
    requires forall j :: 0 <= j < |keys| ==> keys[j] in labels
    ensures key == name + Tail(keys, labels)
  {
    hide Tail;
    key := name;
    NoPairs(name, labels);
    for i := 0 to |keys|
      invariant key == name + Tail(keys[..i], labels)
    {
      OnePairMore(name, keys, i, labels);
      key := key + "," + keys[i] + "=" + labels[keys[i]];
    }
    assert keys[..|keys|] == keys;
  }

  lemma NoPairs(name: string, labels: Labels)
    ensures name + Tail([], labels) == name
  {
  }

  /** `seriesKeyString`, the storage packages' key. */
  method SeriesKeyString(name: string, labels: Labels) returns (key: string)
    ensures key == SeriesKey(name, labels)
  {
    if |labels| == 0 {
      assert labels == map[];
      assert name + "" == name;
      return name;
    }
    SortedKeys(labels);
    var keys := SortedList(labels.Keys);
    key := AppendPairs(name, keys, labels);
  }

  /* ---- decoding ---- */

  predicate PlainKey(k: string) { ',' !in k && '=' !in k }

  predicate PlainLabels(labels: Labels) {
    forall k :: k in labels ==> PlainKey(k) && ',' !in labels[k]
  }

  /** `k=v` read back: the key ends at the first `=`. */
  function ParsePair(field: string): (string, string) {
    var i := IndexOf(field, '=');
    if i == |field| then (field, "") else (field[..i], field[i + 1..])
  }

  function ParsePairs(fields: seq<string>): Labels {
    if fields == [] then map[]
    else var p := ParsePair(fields[0]); ParsePairs(fields[1..])[p.0 := p.1]
  }

  function ParseKey(key: string): (string, Labels) {
    var fields := Split(key, ',');
    (fields[0], ParsePairs(fields[1..]))
  }

  function Pairs(ks: seq<string>, labels: Labels): (r: seq<string>)
    requires forall i :: 0 <= i < |ks| ==> ks[i] in labels
    ensures |r| == |ks|
  {
    if ks == [] then [] else [ks[0] + "=" + labels[ks[0]]] + Pairs(ks[1..], labels)
  }

  lemma {:induction false} SplitTail(name: string, ks: seq<string>, labels: Labels)
    requires ',' !in name && PlainLabels(labels)
    requires forall i :: 0 <= i < |ks| ==> ks[i] in labels
    ensures Split(name + Tail(ks, labels), ',') == [name] + Pairs(ks, labels)
    decreases |ks|
  {
    if ks == [] {
      assert name + Tail(ks, labels) == name;
      SplitNone(name, ',');
    } else {
      var field := ks[0] + "=" + labels[ks[0]];
      var rest := field + Tail(ks[1..], labels);
      assert name + Tail(ks, labels) == name + [','] + rest;
      SplitFirst(name, ',', rest);
      assert ',' !in field;
      SplitTail(field, ks[1..], labels);
    }
  }

  lemma ParsePlainPair(k: string, v: string)
    requires PlainKey(k)
    ensures ParsePair(k + "=" + v) == (k, v)
  {
    IndexOfAppend(k, '=', v);
    assert k + "=" + v == k + ['='] + v;
    assert (k + "=" + v)[..|k|] == k && (k + "=" + v)[|k| + 1..] == v;
  }

  lemma FirstElement(ks: seq<string>)
    requires ks != []
    ensures Elements(ks) == {ks[0]} + Elements(ks[1..])
  {
    assert ks == [] + [ks[0]] + ks[1..];
    assert ks[1..][..0] + [ks[0]] + ks[1..][0..] == ks;
    ElementsInsert(ks[1..], 0, ks[0]);
  }

  lemma {:induction false} ParsePairsBack(ks: seq<string>, labels: Labels)
    requires PlainLabels(labels) && forall i :: 0 <= i < |ks| ==> ks[i] in labels
    ensures ParsePairs(Pairs(ks, labels)) == map k | k in labels && k in Elements(ks) :: labels[k]
    decreases |ks|
  {
    hide ParsePair, Elements;
    if ks == [] {
      assert Elements([]) == {} by { NoElement(); }
    } else {
      assert PlainKey(ks[0]);
      hide PlainLabels, PlainKey;
      ParsePlainPair(ks[0], labels[ks[0]]);
      ParsePairsBack(ks[1..], labels);
      assert Pairs(ks, labels)[1..] == Pairs(ks[1..], labels);
      FirstElement(ks);
    }
  }

  lemma NoElement()
    ensures Elements([]) == {}
  {
  }

  /** A key built from separator-free parts determines the name and every label. */
  lemma {:induction false} ParseSeriesKey(name: string, labels: Labels)
    requires ',' !in name && PlainLabels(labels)
    ensures ParseKey(SeriesKey(name, labels)) == (name, labels)
  {
    SortedKeys(labels);
    var ks := Sorted(labels.Keys);
    SplitTail(name, ks, labels);
    ParsePairsBack(ks, labels);
    assert ([name] + Pairs(ks, labels))[1..] == Pairs(ks, labels);
    assert labels == map k | k in labels && k in Elements(ks) :: labels[k];
  }

  lemma {:induction false} SeriesKeyInjective(n1: string, l1: Labels, n2: string, l2: Labels)
    requires ',' !in n1 && PlainLabels(l1) && ',' !in n2 && PlainLabels(l2)
    ensures SeriesKey(n1, l1) == SeriesKey(n2, l2) <==> n1 == n2 && l1 == l2
  {
    ParseSeriesKey(n1, l1);
    ParseSeriesKey(n2, l2);
  }

  /* ---- shared keys ---- */

  lemma Unlabelled(name: string)
    ensures SeriesKey(name, map[]) == name
  {
    assert LabelTail(map[]) == "";
  }

  lemma OneLabel(name: string, k: string, v: string)
    ensures SeriesKey(name, map[k := v]) == name + ("," + (k + "=" + v))
  {
    var labels := map[k := v];
    SortedKeys(labels);
    assert Elements([k]) == {k} by { assert [k][0] == k; }
    AscendingUnique(Sorted(labels.Keys), [k]);
    assert Tail([k][1..], labels) == "";
  }

  lemma TailStarts(name: string, labels: Labels)
    requires labels != map[]
    ensures CommaThenEquals(SeriesKey(name, labels))
  {
    SortedKeys(labels);
    var ks := Sorted(labels.Keys);
    var k :| k in labels;
    assert k in Elements(ks);
    var key, i, j := SeriesKey(name, labels), |name|, |name| + 1 + |ks[0]|;
    assert key == name + ("," + (ks[0] + "=" + labels[ks[0]]) + Tail(ks[1..], labels));
    assert key[i] == ',' && key[j] == '=';
  }

  predicate CommaThenEquals(s: string) { exists i, j :: 0 <= i < j < |s| && s[i] == ',' && s[j] == '=' }

  ghost predicate KeyIsShared(name: string, labels: Labels) {
    exists n, l :: (n != name || l != labels) && SeriesKey(n, l) == SeriesKey(name, labels)
  }

  lemma SplitsAgain(name: string)
    requires CommaThenEquals(name)
    ensures KeyIsShared(name, map[])
  {
    hide SeriesKey;
    var i, j :| 0 <= i < j < |name| && name[i] == ',' && name[j] == '=';
    var front, k, v := name[..i], name[i + 1..j], name[j + 1..];
    Unlabelled(name);
    OneLabel(front, k, v);
    SplitAt(name, i, j);
    assert SeriesKey(front, map[k := v]) == SeriesKey(name, map[]);
  }

  lemma SplitAt(name: string, i: nat, j: nat)
    requires i < j < |name| && name[i] == ',' && name[j] == '='
    ensures name == name[..i] + ("," + (name[i + 1..j] + "=" + name[j + 1..]))
  {
  }

  lemma SharedHasEquals(name: string)
    requires KeyIsShared(name, map[])
    ensures CommaThenEquals(name)
  {
    hide SeriesKey, CommaThenEquals;
    var n, l :| (n != name || l != map[]) && SeriesKey(n, l) == SeriesKey(name, map[]);
    Unlabelled(name);
    Unlabelled(n);
    if l != map[] { TailStarts(n, l); }
  }

  /** Another series has the key of a series exactly when the series has labels or its name holds
      a comma and later an equals sign. */
  lemma {:induction false} SharedExactly(name: string, labels: Labels)
    ensures KeyIsShared(name, labels) <==> labels != map[] || CommaThenEquals(name)
  {
    hide SeriesKey, CommaThenEquals;
    if labels != map[] {
      Unlabelled(SeriesKey(name, labels));
    } else {
      hide KeyIsShared;
      if CommaThenEquals(name) { SplitsAgain(name); }
      if KeyIsShared(name, map[]) { SharedHasEquals(name); }
    }
  }

  /* ---- the ingest variant: labels that start with an underscore are left out ---- */

  predicate Internal(k: string) { |k| > 0 && k[0] == '_' }

  function UserLabels(labels: Labels): Labels { map k | k in labels && !Internal(k) :: labels[k] }

  /** Exactly the labels that do not start with an underscore are left, values unchanged. */
  lemma UserLabelsAre(labels: Labels, k: string)
    ensures k in UserLabels(labels) <==> k in labels && (k == "" || k[0] != '_')
    ensures k in UserLabels(labels) ==> UserLabels(labels)[k] == labels[k]
  {
  }

  ghost function IngestKey(name: string, labels: Labels): string { SeriesKey(name, UserLabels(labels)) }

  method IngestSeriesKey(name: string, labels: Labels) returns (key: string)
    ensures key == IngestKey(name, labels)
  {
    if |labels| == 0 {
      assert labels == map[] && UserLabels(labels) == map[];
      assert name + "" == name;
      return name;
    }
    var user := UserLabels(labels);
    SortedKeys(user);
    var keys := SortedList(user.Keys);
    key := AppendPairs(name, keys, user);
  }

  /** Ingest keys agree exactly when the names and the labels without underscore do. */
  lemma {:induction false} IngestKeyInjective(n1: string, l1: Labels, n2: string, l2: Labels)
    requires ',' !in n1 && PlainLabels(UserLabels(l1)) && ',' !in n2 && PlainLabels(UserLabels(l2))
    ensures IngestKey(n1, l1) == IngestKey(n2, l2) <==> n1 == n2 && UserLabels(l1) == UserLabels(l2)
  {
    SeriesKeyInjective(n1, UserLabels(l1), n2, UserLabels(l2));
  }

  /** What comes before the first comma of an ingest key is the metric name. */
  lemma {:induction false} IngestKeyName(name: string, labels: Labels)
    requires ',' !in name
    ensures var key := IngestKey(name, labels); key[..IndexOf(key, ',')] == name
  {
    var tail := LabelTail(UserLabels(labels));
    SortedKeys(UserLabels(labels));
    if tail == "" {
      assert name + tail == name;
      IndexOfAppend(name, ',', "");
    } else {
      assert name + tail == name + [','] + tail[1..];
      IndexOfAppend(name, ',', tail[1..]);
    }
  }

  /* ---- the executor variant: `k=v,` for each label, no name ---- */

  function Heads(ks: seq<string>, labels: Labels): string
    requires forall i :: 0 <= i < |ks| ==> ks[i] in labels
  {
    if ks == [] then "" else ks[0] + "=" + labels[ks[0]] + "," + Heads(ks[1..], labels)
  }

  ghost function LabelKey(labels: Labels): string {
    SortedKeys(labels);
    Heads(Sorted(labels.Keys), labels)
  }

  lemma HeadsFirst(k: string, ks: seq<string>, labels: Labels)
    requires k in labels && forall i :: 0 <= i < |ks| ==> ks[i] in labels
    ensures Heads([k] + ks, labels) == (k + "=" + labels[k] + ",") + Heads(ks, labels)
  {
    assert ([k] + ks)[1..] == ks;
  }

  lemma {:induction false} HeadsAppend(ks: seq<string>, k: string, labels: Labels)
    requires k in labels && forall i :: 0 <= i < |ks| ==> ks[i] in labels
    ensures Heads(ks + [k], labels) == Heads(ks, labels) + k + "=" + labels[k] + ","
  {
    hide Heads;
    NoHeads(labels);
    if ks == [] {
      HeadsFirst(k, [], labels);
      assert [] + [k] == [k] + [];
    } else {
      var first, rest := ks[0], ks[1..];
      assert ks + [k] == [first] + (rest + [k]) && ks == [first] + rest;
      HeadsFirst(first, rest + [k], labels);
      HeadsFirst(first, rest, labels);
      HeadsAppend(rest, k, labels);
    }
  }

  lemma NoHeads(labels: Labels)
    ensures Heads([], labels) == ""
  {
  }

  lemma {:induction false} HeadsAreTail(ks: seq<string>, labels: Labels)
    requires forall i :: 0 <= i < |ks| ==> ks[i] in labels
    ensures "," + Heads(ks, labels) == Tail(ks, labels) + ","
    decreases |ks|
  {
    if ks != [] {
      HeadsAreTail(ks[1..], labels);
      var field := ks[0] + "=" + labels[ks[0]];
      calc {
        "," + Heads(ks, labels);
        "," + (field + "," + Heads(ks[1..], labels));
        "," + field + ("," + Heads(ks[1..], labels));
        "," + field + (Tail(ks[1..], labels) + ",");
        Tail(ks, labels) + ",";
      }
    }
  }

  /** Executor keys agree exactly when the label sets do. */
  lemma {:induction false} LabelKeyInjective(l1: Labels, l2: Labels)
    requires PlainLabels(l1) && PlainLabels(l2)
    ensures LabelKey(l1) == LabelKey(l2) <==> l1 == l2
  {
    if LabelKey(l1) == LabelKey(l2) {
      SortedKeys(l1);
      SortedKeys(l2);
      HeadsAreTail(Sorted(l1.Keys), l1);
      HeadsAreTail(Sorted(l2.Keys), l2);
      var t1, t2 := LabelTail(l1), LabelTail(l2);
      assert t1 == (t1 + ",")[..|t1 + ","| - 1] && t2 == (t2 + ",")[..|t2 + ","| - 1];
      SeriesKeyInjective("", l1, "", l2);
    }
  }

  /* ---- the aggregate variant: the name carries the bucket time in whole seconds ---- */

  ghost function AggregateKey(name: string, labels: Labels, seconds: int): string {
    SeriesKey(name + "@" + Rfc3339(seconds), labels)
  }

  method AggregateKeyString(name: string, labels: Labels, seconds: int) returns (key: string)
    ensures key == AggregateKey(name, labels, seconds)
  {
    key := SeriesKeyString(name + "@" + Rfc3339(seconds), labels);
  }

  lemma NoLaterAt(n: string, t: string)
    requires '@' !in t
    ensures forall i :: |n| < i < |n + "@" + t| ==> (n + "@" + t)[i] != '@'
  {
    forall i | |n| < i < |n + "@" + t| ensures (n + "@" + t)[i] != '@' {
      assert (n + "@" + t)[i] == t[i - |n| - 1];
    }
  }

  lemma AtSplits(n1: string, t1: string, n2: string, t2: string)
    requires '@' !in t1 && '@' !in t2
    requires n1 + "@" + t1 == n2 + "@" + t2
    ensures n1 == n2 && t1 == t2
  {
    var s := n1 + "@" + t1;
    assert s[|n1|] == '@' && s[|n2|] == '@';
    NoLaterAt(n1, t1);
    NoLaterAt(n2, t2);
    assert s[..|n1|] == n1 && s[..|n2|] == n2;
    assert s[|n1| + 1..] == t1 && s[|n2| + 1..] == t2;
  }

  /** Aggregate keys separate names, label sets and bucket times. */
  lemma {:induction false} AggregateKeyInjective(n1: string, l1: Labels, t1: int, n2: string, l2: Labels, t2: int)
    requires ',' !in n1 && PlainLabels(l1) && ',' !in n2 && PlainLabels(l2)
    ensures AggregateKey(n1, l1, t1) == AggregateKey(n2, l2, t2) <==> n1 == n2 && l1 == l2 && t1 == t2
  {
    Rfc3339Plain(t1);
    Rfc3339Plain(t2);
    SeriesKeyInjective(n1 + "@" + Rfc3339(t1), l1, n2 + "@" + Rfc3339(t2), l2);
    if AggregateKey(n1, l1, t1) == AggregateKey(n2, l2, t2) {
      AtSplits(n1, Rfc3339(t1), n2, Rfc3339(t2));
      Rfc3339Injective(t1, t2);
    }
  }
}
