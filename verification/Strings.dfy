/**
 Byte strings: their order, sorting, splitting.
 */
module Strings {

  /** Bytewise order, as `sort.Strings` compares. */
  predicate Below(a: string, b: string) {
    b != [] && (a == [] || a[0] < b[0] || (a[0] == b[0] && Below(a[1..], b[1..])))
  }

  lemma {:induction false} BelowTotal(a: string, b: string)
    ensures Below(a, b) || a == b || Below(b, a)
  {
    if a != [] && b != [] && a[0] == b[0] {
      BelowTotal(a[1..], b[1..]);
      assert a == [a[0]] + a[1..] && b == [b[0]] + b[1..];
    }
  }

  lemma {:induction false} BelowTransitive(a: string, b: string, c: string)
    requires Below(a, b) && Below(b, c)
    ensures Below(a, c)
  {
    if a != [] && b != [] && c != [] && a[0] == b[0] == c[0] {
      BelowTransitive(a[1..], b[1..], c[1..]);
    }
  }

  lemma {:induction false} BelowIrreflexive(a: string, b: string)
    requires Below(a, b)
    ensures !Below(b, a) && a != b
  {
    if a != [] && a[0] == b[0] { BelowIrreflexive(a[1..], b[1..]); }
  }

  /** Strictly ascending. */
  predicate Ascending(s: seq<string>) {
    forall i, j :: 0 <= i < j < |s| ==> Below(s[i], s[j])
  }

  function Elements(s: seq<string>): set<string> { set i | 0 <= i < |s| :: s[i] }

  /** The sorted list of a set is determined by the set. */
  lemma {:induction false} AscendingUnique(a: seq<string>, b: seq<string>)
    requires Ascending(a) && Ascending(b) && Elements(a) == Elements(b)
    ensures a == b
    decreases |a|
  {
    assert |b| > 0 ==> b[0] in Elements(b);
    if a != [] {
      assert a[0] in Elements(a);
      var i :| 0 <= i < |b| && b[i] == a[0];
      assert b[0] in Elements(b);
      var j :| 0 <= j < |a| && a[j] == b[0];
      if i > 0 && j > 0 { BelowIrreflexive(b[0], b[i]); }
      assert a[0] == b[0];
      TailElements(a);
      TailElements(b);
      AscendingUnique(a[1..], b[1..]);
      assert a == [a[0]] + a[1..] && b == [b[0]] + b[1..];
    }
  }

  lemma TailElements(a: seq<string>)
    requires Ascending(a) && a != []
    ensures Ascending(a[1..]) && Elements(a[1..]) == Elements(a) - {a[0]}
  {
    forall x | x in Elements(a[1..]) ensures x in Elements(a) - {a[0]} {
      var i :| 0 <= i < |a[1..]| && a[1..][i] == x;
      assert a[i + 1] == x && Below(a[0], a[i + 1]);
      BelowIrreflexive(a[0], x);
    }
    forall x | x in Elements(a) - {a[0]} ensures x in Elements(a[1..]) {
      var i :| 0 <= i < |a| && a[i] == x;
      assert a[1..][i - 1] == x;
    }
  }

  predicate Least(x: string, s: set<string>) { x in s && forall y :: y in s && y != x ==> Below(x, y) }

  lemma {:induction false} LeastExists(s: set<string>) returns (x: string)
    requires s != {}
    ensures Least(x, s)
    decreases |s|
  {
    x :| x in s;
    if s != {x} {
      var y := LeastExists(s - {x});
      BelowTotal(x, y);
      if Below(y, x) {
        x := y;
      } else {
        forall z | z in s && z != x ensures Below(x, z) {
          if z != y { BelowTransitive(x, y, z); }
        }
      }
    }
  }

  /** The elements of `s` in ascending order. */
  ghost function Sorted(s: set<string>): (r: seq<string>)
    ensures Ascending(r) && Elements(r) == s
    decreases |s|
  {
    if s == {} then []
    else
      var x := LeastWitness(s);
      var rest := Sorted(s - {x});
      SortedStep(x, s, rest);
      [x] + rest
  }

  ghost function LeastWitness(s: set<string>): (x: string)
    requires s != {}
    ensures Least(x, s)
  {
    assert exists x :: Least(x, s) by { var x := LeastExists(s); }
    var x :| Least(x, s);
    x
  }

  lemma SortedStep(x: string, s: set<string>, rest: seq<string>)
    requires Least(x, s) && Ascending(rest) && Elements(rest) == s - {x}
    ensures Ascending([x] + rest) && Elements([x] + rest) == s
  {
    var r := [x] + rest;
    forall i, j | 0 <= i < j < |r| ensures Below(r[i], r[j]) {
      assert r[j] == rest[j - 1] && rest[j - 1] in Elements(rest);
      if i > 0 { assert r[i] == rest[i - 1]; }
    }
    forall y | y in s ensures y in Elements(r) {
      if y != x {
        assert y in Elements(rest);
        var i :| 0 <= i < |rest| && rest[i] == y;
        assert r[i + 1] == y;
      } else {
        assert r[0] == x;
      }
    }
    forall y | y in Elements(r) ensures y in s {
      var i :| 0 <= i < |r| && r[i] == y;
      if i > 0 { assert rest[i - 1] in Elements(rest); }
    }
  }

  /** `sort.Strings` on a list without repetitions, as an insertion sort. */
  method Sort(keys: seq<string>) returns (r: seq<string>)
    requires forall i, j :: 0 <= i < j < |keys| ==> keys[i] != keys[j]
    ensures r == Sorted(Elements(keys))
  {
    r := [];
    for n := 0 to |keys|
      invariant Ascending(r) && Elements(r) == Elements(keys[..n])
    {
      var i := 0;
      while i < |r| && Below(r[i], keys[n])
        invariant 0 <= i <= |r|
        invariant forall j :: 0 <= j < i ==> Below(r[j], keys[n])
      {
        i := i + 1;
      }
      Inserted(r, i, keys[n], Elements(keys[..n]), keys, n);
      r := r[..i] + [keys[n]] + r[i..];
    }
    assert keys[..|keys|] == keys;
    AscendingUnique(r, Sorted(Elements(keys)));
  }

  lemma AppendElement(keys: seq<string>, k: string)
    ensures Elements(keys + [k]) == Elements(keys) + {k}
  {
    assert keys[..|keys|] + [k] + keys[|keys|..] == keys + [k];
    ElementsInsert(keys, |keys|, k);
  }

  lemma NoElements()
    ensures Elements([]) == {}
  {
  }

  lemma NewElement(keys: seq<string>, k: string)
    requires k !in Elements(keys)
    ensures forall i :: 0 <= i < |keys| ==> keys[i] != k
  {
    forall i | 0 <= i < |keys| ensures keys[i] != k { assert keys[i] in Elements(keys); }
  }

  /** A set's elements in the arbitrary order a range loop visits them, then sorted. */
  method SortedList(s: set<string>) returns (keys: seq<string>)
    ensures keys == Sorted(s)
  {
    hide Elements;
    keys := [];
    var left := s;
    NoElements();
    while left != {}
      invariant Elements(keys) + left == s && Elements(keys) !! left
      invariant forall i, j :: 0 <= i < j < |keys| ==> keys[i] != keys[j]
      decreases |left|
    {
      var k :| k in left;
      NewElement(keys, k);
      AppendElement(keys, k);
      keys := keys + [k];
      left := left - {k};
    }
    keys := Sort(keys);
  }

  lemma Inserted(r: seq<string>, i: nat, x: string, s: set<string>, keys: seq<string>, n: nat)
    requires Ascending(r) && Elements(r) == s && i <= |r|
    requires n < |keys| && x == keys[n] && s == Elements(keys[..n])
    requires forall i, j :: 0 <= i < j < |keys| ==> keys[i] != keys[j]
    requires forall j :: 0 <= j < i ==> Below(r[j], x)
    requires i < |r| ==> !Below(r[i], x)
    ensures Ascending(r[..i] + [x] + r[i..]) && Elements(r[..i] + [x] + r[i..]) == Elements(keys[..n + 1])
  {
    var r' := r[..i] + [x] + r[i..];
    if i < |r| {
      assert r[i] in Elements(r);
      BelowTotal(r[i], x);
      forall j | i <= j < |r| ensures Below(x, r[j]) {
        if j > i { BelowTransitive(x, r[i], r[j]); }
      }
    }
    forall a, b | 0 <= a < b < |r'| ensures Below(r'[a], r'[b]) {
      if b < i { assert r'[a] == r[a] && r'[b] == r[b]; }
      else if b == i { assert r'[a] == r[a]; }
      else if a == i { assert r'[b] == r[b - 1]; }
      else { assert r'[b] == r[b - 1] && r'[a] == if a < i then r[a] else r[a - 1]; }
    }
    ElementsInsert(r, i, x);
    assert keys[..n + 1] == keys[..n] + [x] + [];
    ElementsInsert(keys[..n], n, x);
    assert keys[..n][..n] + [x] + keys[..n][n..] == keys[..n + 1];
  }

  lemma ElementsInsert(r: seq<string>, i: nat, x: string)
    requires i <= |r|
    ensures Elements(r[..i] + [x] + r[i..]) == Elements(r) + {x}
  {
    var r' := r[..i] + [x] + r[i..];
    forall y | y in Elements(r) + {x} ensures y in Elements(r') {
      if y == x {
        assert r'[i] == x;
      } else {
        var j :| 0 <= j < |r| && r[j] == y;
        assert r'[if j < i then j else j + 1] == y;
      }
    }
  }

  /** Where `c` first occurs in `s`, `|s|` if it does not (`strings.IndexByte`). */
  function IndexOf(s: string, c: char): (i: nat)
    ensures i <= |s| && c !in s[..i] && (i < |s| ==> s[i] == c)
  {
    if s == [] || s[0] == c then 0 else
      assert s[..1 + IndexOf(s[1..], c)] == [s[0]] + s[1..][..IndexOf(s[1..], c)];
      1 + IndexOf(s[1..], c)
  }

  lemma {:induction false} IndexOfAppend(a: string, c: char, b: string)
    requires c !in a
    ensures IndexOf(a + [c] + b, c) == |a|
    ensures IndexOf(a, c) == |a|
  {
    if a != [] {
      IndexOfAppend(a[1..], c, b);
      assert (a + [c] + b)[1..] == a[1..] + [c] + b;
    }
  }

  /** `strings.Split` on a one-byte separator. */
  function Split(s: string, c: char): (parts: seq<string>)
    ensures parts != []
    decreases |s|
  {
    var i := IndexOf(s, c);
    if i == |s| then [s] else [s[..i]] + Split(s[i + 1..], c)
  }

  lemma SplitNone(a: string, c: char)
    requires c !in a
    ensures Split(a, c) == [a]
  {
    IndexOfAppend(a, c, []);
  }

  lemma SplitFirst(a: string, c: char, b: string)
    requires c !in a
    ensures Split(a + [c] + b, c) == [a] + Split(b, c)
  {
    IndexOfAppend(a, c, b);
    var s := a + [c] + b;
    assert s[..|a|] == a && s[|a| + 1..] == b;
  }
}
