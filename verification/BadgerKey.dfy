/**
 The key codec of the Badger store (pkg/storage/badger/badger.go): two length bytes, the
 metric name, eight bytes of series hash, eight bytes of timestamp.  The hash is a parameter.
 */
module BadgerKey {
  import opened Integers
  import opened Options
  import opened SeriesKeys
  import opened Strings

  type Hash = string -> nat

  /** `uint64(t.UnixNano())`: the count of nanoseconds wraps. */
  function Unsigned(t: int): (u: nat)
    ensures u < TWO64
  {
    t % TWO64
  }

  /** `int64(u)`. */
  function Signed(u: nat): int { if u < TWO63 then u else u - TWO64 }

  /** What a key can hold of an instant. */
  function Nanos(t: int): (n: int)
    ensures n == t <==> IsInt64(t)
  {
    Signed(Unsigned(t))
  }

  function Pow256(k: nat): (p: nat)
    ensures p > 0
  {
    if k == 0 then 1 else 256 * Pow256(k - 1)
  }

  /** The low `k` bytes of `n`, most significant first. */
  function BigEndian(n: nat, k: nat): (s: string)
    ensures |s| == k
  {
    if k == 0 then "" else BigEndian(n / 256, k - 1) + [(n % 256) as char]
  }

  function Value(s: string): nat {
    if s == [] then 0 else Value(s[..|s| - 1]) * 256 + s[|s| - 1] as int
  }

  lemma {:induction false} ValueOfBigEndian(n: nat, k: nat)
    requires n < Pow256(k)
    ensures Value(BigEndian(n, k)) == n
    decreases k
  {
    if k > 0 {
      ValueOfBigEndian(n / 256, k - 1);
      var s := BigEndian(n, k);
      assert s[..|s| - 1] == BigEndian(n / 256, k - 1);
    }
  }

  lemma Widths()
    ensures Pow256(2) == 65536 && Pow256(8) == TWO64
  {
    assert Pow256(2) == 256 * 256 * Pow256(0);
    assert Pow256(4) == 256 * 256 * Pow256(2);
    assert Pow256(6) == 256 * 256 * Pow256(4);
    assert Pow256(8) == 256 * 256 * Pow256(6);
  }

  /** `uint16(len(name))`, then the name: what every key of the metric starts with. */
  function Prefix(name: string): string { BigEndian(|name| % 65536, 2) + name }

  ghost function MakeKey(hash: Hash, name: string, labels: Labels, t: int): (key: string)
    ensures |key| == |name| + 18
  {
    Prefix(name) + BigEndian(hash(SeriesKey(name, labels)) % TWO64, 8) + BigEndian(Unsigned(t), 8)
  }

  /** `binary.BigEndian.PutUint16` and `PutUint64` at an offset. */
  method PutBigEndian(buffer: array<char>, offset: nat, n: nat, k: nat)
    requires offset + k <= buffer.Length
    modifies buffer
    ensures buffer[offset..offset + k] == BigEndian(n, k)
    ensures forall i :: 0 <= i < buffer.Length && !(offset <= i < offset + k) ==> buffer[i] == old(buffer[i])
    decreases k
  {
    if k > 0 {
      PutBigEndian(buffer, offset, n / 256, k - 1);
      buffer[offset + k - 1] := (n % 256) as char;
      assert buffer[offset..offset + k] == buffer[offset..offset + k - 1] + [buffer[offset + k - 1]];
    }
  }

  /** `copy(key[2:], name)`. */
  method CopyName(key: array<char>, name: string)
    requires 2 + |name| <= key.Length
    modifies key
    ensures key[2..2 + |name|] == name
    ensures forall i :: 0 <= i < key.Length && !(2 <= i < 2 + |name|) ==> key[i] == old(key[i])
  {
    forall i | 0 <= i < |name| { key[2 + i] := name[i]; }
  }

  lemma Joined(s: string, n: nat)
    requires |s| == n + 18
    ensures s == s[0..2] + s[2..2 + n] + s[2 + n..2 + n + 8] + s[2 + n + 8..2 + n + 16]
  {
  }

  /** `makeKey`: filling the key buffer field by field. */
  method FillKey(hash: Hash, name: string, labels: Labels, t: int) returns (key: array<char>)
    ensures fresh(key) && key[..] == MakeKey(hash, name, labels, t)
  {
    hide BigEndian, SeriesKey, Unsigned;
    var series := SeriesKeyString(name, labels);
    var h := hash(series) % TWO64;
    var n := |name|;
    key := new char[2 + n + 16];
    PutBigEndian(key, 0, n % 65536, 2);
    CopyName(key, name);
    PutBigEndian(key, 2 + n, h, 8);
    assert key[0..2] == BigEndian(n % 65536, 2) && key[2..2 + n] == name;
    PutBigEndian(key, 2 + n + 8, Unsigned(t), 8);
    assert key[0..2] == BigEndian(n % 65536, 2) && key[2..2 + n] == name && key[2 + n..2 + n + 8] == BigEndian(h, 8);
    Joined(key[..], n);
  }

  /** A Go slice expression: None where it panics. */
  function Slice(s: string, low: nat, high: nat): Option<string> {
    if low <= high <= |s| then Some(s[low..high]) else None
  }

  /** `parseKey`.  The offsets are computed in 16 bits; None where a slice is out of range.
      A key shorter than 18 bytes yields the empty name and the zero instant. */
  function ParseKey(key: string, zero: int): Option<(string, int)> {
    if |key| < 18 then Some(("", zero))
    else
      var n := Value(key[0..2]) % 65536;
      var name := Slice(key, 2, (2 + n) % 65536);
      var t := Slice(key, (2 + n + 8) % 65536, (2 + n + 16) % 65536);
      if name == None || t == None || |t.value| < 8 then None
      else Some((name.value, Signed(Value(t.value[..8]) % TWO64)))
  }

  lemma FourParts(a: string, b: string, c: string, d: string)
    ensures var s := a + b + c + d;
            && s[0..|a|] == a && s[|a|..|a| + |b|] == b
            && s[|a| + |b| + |c|..|a| + |b| + |c| + |d|] == d
  {
  }

  lemma KeyFields(hash: Hash, name: string, labels: Labels, t: int)
    ensures var key, n := MakeKey(hash, name, labels, t), |name|;
            && key[0..2] == BigEndian(n % 65536, 2) && key[2..2 + n] == name
            && key[2 + n + 8..2 + n + 16] == BigEndian(Unsigned(t), 8)
            && Value(key[0..2]) == n % 65536
  {
    hide BigEndian, Value, Pow256, Unsigned;
    var n := |name|;
    Widths();
    ValueOfBigEndian(n % 65536, 2);
    FourParts(BigEndian(n % 65536, 2), name, BigEndian(hash(SeriesKey(name, labels)) % TWO64, 8), BigEndian(Unsigned(t), 8));
  }

  /** Names of at most 65517 bytes: the key gives back the name and the count of nanoseconds,
      whatever the labels. */
  lemma ParseMadeKey(hash: Hash, name: string, labels: Labels, t: int, zero: int)
    requires |name| <= 65517
    ensures ParseKey(MakeKey(hash, name, labels, t), zero) == Some((name, Nanos(t)))
  {
    hide MakeKey, BigEndian, Value, Pow256, Unsigned, Signed;
    var key, n := MakeKey(hash, name, labels, t), |name|;
    KeyFields(hash, name, labels, t);
    Widths();
    ValueOfBigEndian(Unsigned(t), 8);
    var field := key[2 + n + 8..2 + n + 16];
    assert field[..8] == field;
  }

  ghost predicate ParsesBack(hash: Hash, name: string, labels: Labels, zero: int, t: int) {
    ParseKey(MakeKey(hash, name, labels, t), zero) == Some((name, t))
  }

  /** Names of 65526 to 65535 bytes: the timestamp is read from the front of the key, which
      does not depend on it. */
  lemma FrontIgnoresTime(hash: Hash, name: string, labels: Labels, a: nat)
    requires a + 8 <= 2 + |name|
    ensures MakeKey(hash, name, labels, 0)[a..a + 8] == MakeKey(hash, name, labels, 1)[a..a + 8]
  {
    hide BigEndian, Unsigned;
    assert MakeKey(hash, name, labels, 0)[a..a + 8] == Prefix(name)[a..a + 8];
    assert MakeKey(hash, name, labels, 1)[a..a + 8] == Prefix(name)[a..a + 8];
  }

  lemma WrappedOffsetsFail(hash: Hash, name: string, labels: Labels, zero: int)
    requires 65517 < |name| < 65536
    ensures !ParsesBack(hash, name, labels, zero, 0) || !ParsesBack(hash, name, labels, zero, 1)
  {
    hide MakeKey, BigEndian, Value, Signed;
    KeyFields(hash, name, labels, 0);
    KeyFields(hash, name, labels, 1);
    if 65526 <= |name| { FrontIgnoresTime(hash, name, labels, |name| + 10 - 65536); }
  }

  lemma WrappedLengthFails(hash: Hash, name: string, labels: Labels, zero: int)
    requires |name| >= 65536
    ensures !ParsesBack(hash, name, labels, zero, 0)
  {
    hide MakeKey, BigEndian, Value, Signed;
    KeyFields(hash, name, labels, 0);
    assert (|name| % 65536 + 2) % 65536 < 65536;
  }

  /** The codec round-trips all instants of the int64 range exactly for names of at most 65517
      bytes. */
  lemma KeyRoundTrips(hash: Hash, name: string, labels: Labels, zero: int)
    ensures (forall t :: IsInt64(t) ==> ParsesBack(hash, name, labels, zero, t)) <==> |name| <= 65517
  {
    if |name| <= 65517 {
      forall t | IsInt64(t) ensures ParsesBack(hash, name, labels, zero, t) { ParseMadeKey(hash, name, labels, t, zero); }
    } else {
      if |name| < 65536 { WrappedOffsetsFail(hash, name, labels, zero); } else { WrappedLengthFails(hash, name, labels, zero); }
    }
  }

  /** For such names an instant comes back exactly when it lies in the int64 range. */
  lemma InstantRoundTrips(hash: Hash, name: string, labels: Labels, zero: int, t: int)
    requires |name| <= 65517
    ensures ParsesBack(hash, name, labels, zero, t) <==> IsInt64(t)
  {
    hide MakeKey, ParseKey, Nanos;
    ParseMadeKey(hash, name, labels, t, zero);
  }

  /** A key starts with a name's prefix exactly when its metric has that name. */
  lemma PrefixIsName(hash: Hash, name: string, labels: Labels, t: int, wanted: string)
    requires |name| < 65536 && |wanted| < 65536
    ensures Prefix(wanted) <= MakeKey(hash, name, labels, t) <==> wanted == name
  {
    hide BigEndian, Unsigned;
    var key, p := MakeKey(hash, name, labels, t), Prefix(wanted);
    if p <= key {
      KeyFields(hash, name, labels, t);
      assert key[0..2] == p[0..2];
      assert p[0..2] == BigEndian(|wanted|, 2);
      LengthBytes(|wanted|, |name|);
      assert key[2..2 + |wanted|] == p[2..] == wanted;
    }
  }

  lemma LengthBytes(a: nat, b: nat)
    requires a < 65536 && b < 65536 && BigEndian(a, 2) == BigEndian(b, 2)
    ensures a == b
  {
    Widths();
    ValueOfBigEndian(a, 2);
    ValueOfBigEndian(b, 2);
  }

  /* ---- key order ---- */

  lemma {:induction false} BelowAppend(a: string, b: string, x: string, y: string)
    requires |a| == |b| && Below(a, b)
    ensures Below(a + x, b + y)
    decreases |a|
  {
    assert (a + x)[0] == a[0] && (b + y)[0] == b[0];
    if a[0] == b[0] {
      assert (a + x)[1..] == a[1..] + x && (b + y)[1..] == b[1..] + y;
      BelowAppend(a[1..], b[1..], x, y);
    }
  }

  lemma {:induction false} BelowPrefixed(p: string, x: string, y: string)
    requires Below(x, y)
    ensures Below(p + x, p + y)
    decreases |p|
  {
    if p == [] {
      assert p + x == x && p + y == y;
    } else {
      assert (p + x)[1..] == p[1..] + x && (p + y)[1..] == p[1..] + y;
      BelowPrefixed(p[1..], x, y);
    }
  }

  /** The order of the bytes is the order of the numbers. */
  lemma {:induction false} BigEndianOrders(a: nat, b: nat, k: nat)
    requires a < b < Pow256(k)
    ensures Below(BigEndian(a, k), BigEndian(b, k))
    decreases k
  {
    if a / 256 < b / 256 {
      BigEndianOrders(a / 256, b / 256, k - 1);
      BelowAppend(BigEndian(a / 256, k - 1), BigEndian(b / 256, k - 1), [(a % 256) as char], [(b % 256) as char]);
    } else {
      assert a / 256 == b / 256 && a % 256 < b % 256;
      BelowPrefixed(BigEndian(a / 256, k - 1), [(a % 256) as char], [(b % 256) as char]);
    }
  }

  /** The keys of one series stand in the order of time, from 1970 on. */
  lemma {:induction false} KeysInTimeOrder(hash: Hash, name: string, labels: Labels, t: int, u: int)
    requires 0 <= t < u < TWO63
    ensures Below(MakeKey(hash, name, labels, t), MakeKey(hash, name, labels, u))
  {
    hide BigEndian, Pow256, SeriesKey, Below;
    Widths();
    BigEndianOrders(t, u, 8);
    BelowPrefixed(Prefix(name) + BigEndian(hash(SeriesKey(name, labels)) % TWO64, 8), BigEndian(t, 8), BigEndian(u, 8));
  }
}
