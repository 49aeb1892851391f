/**
 Facts about sets, sequences and multisets.
 */
module Collections {

  lemma {:induction false} SubsetSize<T>(a: set<T>, b: set<T>)
    requires a <= b
    ensures |a| <= |b|
    decreases |a|
  {
    if a != {} {
      var x :| x in a;
      SubsetSize(a - {x}, b - {x});
    }
  }

  function Without<T>(y: seq<T>, i: nat): (r: seq<T>)
    requires i < |y|
    ensures |r| == |y| - 1
    ensures forall j :: 0 <= j < |r| ==> r[j] in y
  {
    y[..i] + y[i + 1..]
  }

  lemma SplitMultiset<T>(y: seq<T>, i: nat)
    requires i < |y|
    ensures multiset(y) == multiset(Without(y, i)) + multiset{y[i]}
    ensures multiset(Without(y, i)) == multiset(y) - multiset{y[i]}
  {
    assert y == y[..i] + [y[i]] + y[i + 1..];
  }

  lemma LastOccurs<T>(x: seq<T>, y: seq<T>) returns (i: nat)
    requires x != [] && multiset(x) == multiset(y)
    ensures i < |y| && y[i] == x[|x| - 1]
  {
    var last := x[|x| - 1];
    assert last in multiset(x);
    i :| 0 <= i < |y| && y[i] == last;
  }

  /** Where the last of `x` stands in a permutation of it. */
  lemma TakeOut<T>(x: seq<T>, y: seq<T>) returns (i: nat)
    requires x != [] && multiset(x) == multiset(y)
    ensures i < |y| && y[i] == x[|x| - 1] && multiset(Without(x, |x| - 1)) == multiset(Without(y, i))
  {
    hide Without;
    i := LastOccurs(x, y);
    SplitMultiset(x, |x| - 1);
    SplitMultiset(y, i);
  }

  lemma WithoutIs<T>(y: seq<T>, i: nat)
    requires i < |y|
    ensures Without(y, i) == y[..i] + y[i + 1..]
    ensures i == |y| - 1 ==> Without(y, i) == y[..i]
    ensures y == y[..i] + [y[i]] + y[i + 1..]
  {
  }
}
