/** Byte strings, little-endian integers and the byte order every component shares. */
module Bytes {

  type byte = x: int | 0 <= x < 256
  type Bytes = seq<byte>

  datatype Option<+T> = None | Some(value: T)

  /** A handle or session name. */
  type Token = Bytes

  // ---- Reserved names ----

  /** "\0forkfs/", "\0forkfs/root" and "\0forkfs-history/" */
  const PREFIX: Bytes := [0, 102, 111, 114, 107, 102, 115, 47]
  const ROOT: Bytes := PREFIX + [114, 111, 111, 116]
  const HISTORY: Bytes := [0, 102, 111, 114, 107, 102, 115, 45, 104, 105, 115, 116, 111, 114, 121, 47]
  /** "main" */
  const MAIN: Bytes := [109, 97, 105, 110]

  function Elements<T>(s: seq<T>): set<T> {
    set x | x in s
  }

  predicate NoRepeats<T(==)>(s: seq<T>) {
    forall i, j :: 0 <= i < j < |s| ==> s[i] != s[j]
  }

  function Zeros(n: nat): (s: Bytes)
    ensures |s| == n && forall i :: 0 <= i < n ==> s[i] == 0
  {
    seq(n, i => 0)
  }

  predicate AllZero(s: Bytes) {
    forall i :: 0 <= i < |s| ==> s[i] == 0
  }

  predicate StartsWith(s: Bytes, prefix: Bytes) {
    |prefix| <= |s| && s[..|prefix|] == prefix
  }

  lemma SliceOfSlice(s: Bytes, lo: nat, hi: nat, i: nat, j: nat)
    requires lo <= hi <= |s| && i <= j <= hi - lo
    ensures s[lo..hi][i..j] == s[lo + i..lo + j]
  {
    forall k | 0 <= k < j - i ensures s[lo..hi][i..j][k] == s[lo + i..lo + j][k] {
      assert s[lo..hi][i + k] == s[lo + (i + k)];
    }
  }

  // ---- Little-endian integers ----

  /** `v` in `n` bytes, least significant first; higher bits are dropped. */
  function Le(v: nat, n: nat): (s: Bytes)
    ensures |s| == n
  {
    if n == 0 then [] else [v % 256] + Le(v / 256, n - 1)
  }

  function Num(s: Bytes): nat {
    if s == [] then 0 else s[0] + 256 * Num(s[1..])
  }

  predicate Fits(v: nat, n: nat) {
    if n == 0 then v == 0 else Fits(v / 256, n - 1)
  }

  lemma {:induction false} NumLe(v: nat, n: nat)
    requires Fits(v, n)
    ensures Num(Le(v, n)) == v
  {
    if n > 0 {
      NumLe(v / 256, n - 1);
      assert Le(v, n)[1..] == Le(v / 256, n - 1);
    }
  }

  lemma {:induction false} LeNum(s: Bytes)
    ensures Le(Num(s), |s|) == s
  {
    if s != [] {
      LeNum(s[1..]);
      assert (s[0] + 256 * Num(s[1..])) % 256 == s[0] && (s[0] + 256 * Num(s[1..])) / 256 == Num(s[1..]);
    }
  }

  const U16 := 0x1_0000
  const U32 := 0x1_0000_0000
  const U64 := 0x1_0000_0000_0000_0000

  lemma FitsU16(v: nat)
    requires v < U16
    ensures Fits(v, 2) && Num(Le(v, 2)) == v
  {
    assert Fits(v / 256 / 256, 0);
    assert Fits(v / 256, 1);
    NumLe(v, 2);
  }

  lemma FitsU32(v: nat)
    requires v < U32
    ensures Fits(v, 4) && Num(Le(v, 4)) == v
  {
    FitsU16(v / 256 / 256);
    assert Fits(v / 256, 3);
    NumLe(v, 4);
  }

  lemma FitsU64(v: nat)
    requires v < U64
    ensures Fits(v, 8) && Num(Le(v, 8)) == v
  {
    FitsU32(v / 256 / 256 / 256 / 256);
    assert Fits(v / 256 / 256 / 256, 5);
    assert Fits(v / 256 / 256, 6);
    assert Fits(v / 256, 7);
    NumLe(v, 8);
  }

  // ---- Lexicographic order, as std::string and std::array compare ----

  predicate Less(a: Bytes, b: Bytes) {
    b != [] && (a == [] || a[0] < b[0] || (a[0] == b[0] && Less(a[1..], b[1..])))
  }

  lemma {:induction false} LessIrreflexive(a: Bytes)
    ensures !Less(a, a)
  {
    if a != [] { LessIrreflexive(a[1..]); }
  }

  lemma {:induction false} LessTransitive(a: Bytes, b: Bytes, c: Bytes)
    requires Less(a, b) && Less(b, c)
    ensures Less(a, c)
  {
    if a != [] && a[0] == b[0] && b[0] == c[0] { LessTransitive(a[1..], b[1..], c[1..]); }
  }

  lemma {:induction false} LessTotal(a: Bytes, b: Bytes)
    ensures Less(a, b) || a == b || Less(b, a)
  {
    if a != [] && b != [] && a[0] == b[0] {
      LessTotal(a[1..], b[1..]);
      assert a == [a[0]] + a[1..] && b == [b[0]] + b[1..];
    }
  }

  lemma LessAsymmetric(a: Bytes, b: Bytes)
    requires Less(a, b)
    ensures !Less(b, a) && a != b
  {
    LessIrreflexive(a);
    if Less(b, a) { LessTransitive(a, b, a); }
  }

  ghost predicate Sorted(keys: seq<Bytes>) {
    forall i, j :: 0 <= i < j < |keys| ==> Less(keys[i], keys[j])
  }

  lemma SortedRest(keys: seq<Bytes>)
    requires Sorted(keys) && keys != []
    ensures Sorted(keys[1..]) && forall k :: k in keys[1..] ==> Less(keys[0], k)
  {
    hide Less;
    var rest := keys[1..];
    forall i, j | 0 <= i < j < |rest| ensures Less(rest[i], rest[j]) { assert Less(keys[i + 1], keys[j + 1]); }
    forall k | k in rest ensures Less(keys[0], k) {
      var i :| 0 <= i < |rest| && rest[i] == k;
      assert Less(keys[0], keys[i + 1]);
    }
  }

  ghost predicate IsLeast(k: Bytes, s: set<Bytes>) {
    k in s && forall x :: x in s && x != k ==> Less(k, x)
  }

  lemma {:induction false} LeastExists(s: set<Bytes>) returns (k: Bytes)
    requires s != {}
    ensures IsLeast(k, s)
  {
    k :| k in s;
    if s != {k} {
      var rest := s - {k};
      var m := LeastExists(rest);
      LessTotal(k, m);
      if Less(m, k) {
        k := m;
      } else {
        forall x | x in s && x != k ensures Less(k, x) {
          if x != m { LessTransitive(k, m, x); }
        }
      }
    }
  }

  /** The keys of a std::map in the order its iterators visit them. */
  ghost function SortedKeys(s: set<Bytes>): (keys: seq<Bytes>)
    ensures |keys| == |s|
    ensures forall k :: k in keys <==> k in s
    ensures Sorted(keys)
    decreases |s|
  {
    if s == {} then []
    else
      assert exists k :: IsLeast(k, s) by { var k := LeastExists(s); }
      var k :| IsLeast(k, s);
      [k] + SortedKeys(s - {k})
  }

  /** A strictly sorted listing is determined by its elements. */
  lemma {:induction false} SortedUnique(a: seq<Bytes>, b: seq<Bytes>)
    requires Sorted(a) && Sorted(b)
    requires forall k :: k in a <==> k in b
    ensures a == b
  {
    assert (a != [] ==> a[0] in a) && (b != [] ==> b[0] in b);
    if a != [] && b != [] {
      assert a[0] in b && b[0] in a;
      if a[0] != b[0] {
        LessAsymmetric(a[0], b[0]);
      }
      forall k | k in a[1..] ensures k in b[1..] {
        assert k in b;
        LessIrreflexive(k);
      }
      forall k | k in b[1..] ensures k in a[1..] {
        assert k in a;
        LessIrreflexive(k);
      }
      SortedUnique(a[1..], b[1..]);
      assert a == [a[0]] + a[1..] && b == [b[0]] + b[1..];
    }
  }

  /** Visits a set in key order, as iterating a std::map does. */
  method ListKeys(s: set<Bytes>) returns (keys: seq<Bytes>)
    ensures keys == SortedKeys(s)
  {
    keys := [];
    var left := s;
    while left != {}
      invariant left <= s && Sorted(keys) && (forall k :: k in keys <==> k in s - left)
      invariant forall k, x :: k in keys && x in left ==> Less(k, x)
      decreases |left|
    {
      ghost var least := LeastExists(left);
      var k :| k in left && forall x | x in left :: x == k || Less(k, x);
      keys := keys + [k];
      left := left - {k};
    }
    SortedUnique(keys, SortedKeys(s));
  }

  lemma SubsetSize(a: set<Bytes>, b: set<Bytes>)
    requires a <= b
    ensures |a| <= |b|
  {
    assert b == a + (b - a);
  }
}
