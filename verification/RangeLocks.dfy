/** Byte-range locks of shared open descriptions (daemon/namespace.cpp, try_lock_range). */
module RangeLocks {
  import opened Bytes

  const TOP: nat := 9223372036854775808
  const MAX_RANGES: nat := 128

  datatype Mode = Shared | Exclusive

  datatype Range = Range(start: nat, end: nat, mode: Mode)

  // ---- Meaning ----

  predicate Within(r: Range, x: nat) {
    r.start <= x < r.end
  }

  /** Some range of the list puts this mode on the byte. */
  ghost predicate Covers(locks: seq<Range>, x: nat, m: Mode) {
    exists r :: r in locks && Within(r, x) && r.mode == m
  }

  /** In order, without overlaps, every range nonempty and below the top. */
  predicate Apart(locks: seq<Range>) {
    (forall i :: 0 <= i < |locks| ==> locks[i].start < locks[i].end <= TOP) &&
    (forall i, j :: 0 <= i < j < |locks| ==> locks[i].end <= locks[j].start)
  }

  /** No two neighbours could be one range. */
  predicate Merged(locks: seq<Range>) {
    forall i :: 0 < i < |locks| ==> locks[i - 1].end < locks[i].start || locks[i - 1].mode != locks[i].mode
  }

  predicate Normal(locks: seq<Range>) {
    Apart(locks) && Merged(locks) && |locks| <= MAX_RANGES
  }

  lemma CoversSnoc(a: seq<Range>, r: Range, x: nat, m: Mode)
    ensures Covers(a + [r], x, m) <==> Covers(a, x, m) || (Within(r, x) && r.mode == m)
  {
    hide Within;
    if Covers(a, x, m) { var q :| q in a && Within(q, x) && q.mode == m; assert q in a + [r]; }
    if Within(r, x) && r.mode == m { assert r in a + [r]; }
  }

  // ---- Cutting the requested interval out ----

  predicate Clear(r: Range, start: nat, end: nat) {
    r.end <= start || end <= r.start
  }

  predicate AllClear(locks: seq<Range>, start: nat, end: nat) {
    forall i :: 0 <= i < |locks| ==> Clear(locks[i], start, end)
  }

  /** What one range leaves outside the interval. */
  function Pieces(r: Range, start: nat, end: nat): seq<Range> {
    if start >= r.end || r.start >= end then [r]
    else
      (if r.start < start then [Range(r.start, start, r.mode)] else []) +
      (if end < r.end then [Range(end, r.end, r.mode)] else [])
  }

  lemma PiecesSound(r: Range, start: nat, end: nat)
    requires r.start < r.end <= TOP && start < end
    ensures Apart(Pieces(r, start, end)) && AllClear(Pieces(r, start, end), start, end) && |Pieces(r, start, end)| <= 2
    ensures forall q :: q in Pieces(r, start, end) ==> r.start <= q.start && q.end <= r.end && q.mode == r.mode
  {
  }

  lemma PiecesMean(r: Range, start: nat, end: nat, x: nat, m: Mode)
    requires r.start < r.end && start < end
    ensures Covers(Pieces(r, start, end), x, m) <==> Within(r, x) && r.mode == m && !(start <= x < end)
  {
    var left, right := Range(r.start, start, r.mode), Range(end, r.end, r.mode);
    if Within(r, x) && r.mode == m && !(start <= x < end) {
      assert Within(if start >= r.end || r.start >= end then r else if x < start then left else right, x);
    }
  }

  lemma CoversConcat(a: seq<Range>, b: seq<Range>, x: nat, m: Mode)
    ensures Covers(a + b, x, m) <==> Covers(a, x, m) || Covers(b, x, m)
  {
    hide Within;
    if Covers(a, x, m) { var q :| q in a && Within(q, x) && q.mode == m; assert q in a + b; }
    if Covers(b, x, m) { var q :| q in b && Within(q, x) && q.mode == m; assert q in a + b; }
  }

  lemma ApartConcat(a: seq<Range>, b: seq<Range>, at: nat)
    requires Apart(a) && Apart(b) && (forall q :: q in a ==> q.end <= at) && (forall q :: q in b ==> at <= q.start)
    ensures Apart(a + b)
  {
    forall i, j | 0 <= i < j < |a + b| ensures (a + b)[i].end <= (a + b)[j].start {
      if i < |a| && j >= |a| { assert a[i] in a && b[j - |a|] in b; }
    }
  }

  ghost predicate CutOf(next: seq<Range>, locks: seq<Range>, start: nat, end: nat) {
    forall x: nat, m :: Covers(next, x, m) <==> Covers(locks, x, m) && !(start <= x < end)
  }

  lemma CutStep(next: seq<Range>, locks: seq<Range>, k: nat, start: nat, end: nat)
    requires k < |locks| && Apart(locks) && start < end && CutOf(next, locks[..k], start, end)
    ensures CutOf(next + Pieces(locks[k], start, end), locks[..k + 1], start, end)
  {
    hide Covers, Pieces;
    var r, pieces := locks[k], Pieces(locks[k], start, end);
    assert locks[..k + 1] == locks[..k] + [r];
    forall x: nat, m ensures Covers(next + pieces, x, m) <==> Covers(locks[..k + 1], x, m) && !(start <= x < end) {
      CoversConcat(next, pieces, x, m);
      CoversSnoc(locks[..k], r, x, m);
      PiecesMean(r, start, end, x, m);
    }
  }

  lemma ClearConcat(a: seq<Range>, b: seq<Range>, start: nat, end: nat)
    requires AllClear(a, start, end) && AllClear(b, start, end)
    ensures AllClear(a + b, start, end)
  {
  }

  method Cut(locks: seq<Range>, start: nat, end: nat) returns (next: seq<Range>)
    requires Apart(locks) && start < end
    ensures Apart(next) && AllClear(next, start, end) && CutOf(next, locks, start, end)
    ensures start == 0 && end == TOP ==> next == []
  {
    hide CutOf, Pieces, AllClear;
    next := [];
    NothingCut(locks, start, end);
    for k := 0 to |locks|
      invariant Apart(next) && AllClear(next, start, end) && CutOf(next, locks[..k], start, end)
      invariant forall q :: q in next ==> k > 0 && q.end <= locks[k - 1].end
      invariant start == 0 && end == TOP ==> next == []
    {
      var r := locks[k];
      var pieces := Pieces(r, start, end);
      PiecesSound(r, start, end);
      ApartConcat(next, pieces, r.start);
      ClearConcat(next, pieces, start, end);
      CutStep(next, locks, k, start, end);
      if start == 0 && end == TOP { NothingLeft(r); }
      next := next + pieces;
    }
    assert locks[..|locks|] == locks;
  }

  lemma NothingCut(locks: seq<Range>, start: nat, end: nat)
    ensures CutOf([], locks[..0], start, end) && AllClear([], start, end)
  {
  }

  lemma NothingLeft(r: Range)
    requires r.start < r.end <= TOP
    ensures Pieces(r, 0, TOP) == []
  {
  }

  // ---- Sorting by start ----

  /** One insertion from the right. */
  function Insert(a: seq<Range>, r: Range): seq<Range> {
    if a == [] then [r]
    else if r.start < a[|a| - 1].start then Insert(a[..|a| - 1], r) + [a[|a| - 1]]
    else a + [r]
  }

  function Sorting(s: seq<Range>): seq<Range> {
    if s == [] then [] else Insert(Sorting(s[..|s| - 1]), s[|s| - 1])
  }

  predicate Ascending(s: seq<Range>) {
    forall i, j :: 0 <= i < j < |s| ==> s[i].start <= s[j].start
  }

  lemma {:induction false} InsertElements(a: seq<Range>, r: Range)
    ensures forall q :: q in Insert(a, r) <==> q in a || q == r
    ensures multiset(Insert(a, r)) == multiset(a) + multiset{r}
  {
    if a != [] {
      var n := |a| - 1;
      assert a == a[..n] + [a[n]];
      InsertElements(a[..n], r);
    }
  }

  lemma AscendingSnoc(a: seq<Range>, r: Range)
    requires Ascending(a) && forall q :: q in a ==> q.start <= r.start
    ensures Ascending(a + [r])
  {
    forall i, j | 0 <= i < j < |a + [r]| ensures (a + [r])[i].start <= (a + [r])[j].start {
      if j == |a| { assert a[i] in a; }
    }
  }

  lemma {:induction false} InsertAscends(a: seq<Range>, r: Range)
    requires Ascending(a)
    ensures Ascending(Insert(a, r))
  {
    if a != [] {
      var n := |a| - 1;
      assert a == a[..n] + [a[n]];
      if r.start < a[n].start {
        InsertAscends(a[..n], r);
        InsertElements(a[..n], r);
        AscendingSnoc(Insert(a[..n], r), a[n]);
      } else {
        AscendingSnoc(a, r);
      }
    }
  }

  /** The sort is a sort: in order, and the same ranges. */
  lemma {:induction false} SortingSorts(s: seq<Range>)
    ensures Ascending(Sorting(s)) && multiset(Sorting(s)) == multiset(s)
  {
    if s != [] {
      SortingSorts(s[..|s| - 1]);
      assert s == s[..|s| - 1] + [s[|s| - 1]];
      InsertAscends(Sorting(s[..|s| - 1]), s[|s| - 1]);
      InsertElements(Sorting(s[..|s| - 1]), s[|s| - 1]);
    }
  }

  method SortByStart(s: seq<Range>) returns (sorted: seq<Range>)
    ensures sorted == Sorting(s)
  {
    sorted := [];
    for i := 0 to |s|
      invariant sorted == Sorting(s[..i])
    {
      assert s[..i + 1][..i] == s[..i];
      sorted := Insert(sorted, s[i]);
    }
    assert s[..|s|] == s;
  }

  lemma InsertLast(a: seq<Range>, r: Range)
    requires a != [] ==> a[|a| - 1].start <= r.start
    ensures Insert(a, r) == a + [r]
  {
  }

  lemma PrefixApart(a: seq<Range>, n: nat)
    requires Apart(a) && n < |a|
    ensures Apart(a[..n]) && (n > 0 ==> a[n - 1].start <= a[n].start)
  {
    if n > 0 { assert a[n - 1].start < a[n - 1].end <= a[n].start; }
  }

  lemma {:induction false} SortedAlready(a: seq<Range>)
    requires Apart(a)
    ensures Sorting(a) == a
  {
    hide Apart, Insert;
    if a != [] {
      var n := |a| - 1;
      PrefixApart(a, n);
      SortedAlready(a[..n]);
      assert Sorting(a) == Insert(a[..n], a[n]);
      InsertLast(a[..n], a[n]);
      assert a == a[..n] + [a[n]];
    }
  }

  /** Putting the request among the ranges it does not touch keeps them apart. */
  lemma {:induction false} InsertApart(a: seq<Range>, r: Range)
    requires Apart(a) && AllClear(a, r.start, r.end) && r.start < r.end <= TOP
    ensures Apart(Insert(a, r)) && forall q :: q in Insert(a, r) <==> q in a || q == r
  {
    if a != [] {
      var n := |a| - 1;
      assert a == a[..n] + [a[n]];
      assert Clear(a[n], r.start, r.end);
      if r.start < a[n].start {
        InsertApart(a[..n], r);
        var b := Insert(a[..n], r);
        forall q | q in b ensures q.end <= a[n].start { }
        ApartConcat(b, [a[n]], a[n].start);
      } else {
        forall q | q in a ensures q.end <= r.start { }
        ApartConcat(a, [r], r.start);
      }
    }
  }

  // ---- Joining neighbours ----

  ghost predicate SameMeaning(a: seq<Range>, b: seq<Range>) {
    forall x: nat, m :: Covers(a, x, m) <==> Covers(b, x, m)
  }

  /** Extending the last range covers what the joined neighbour covered. */
  lemma ExtendMeans(out: seq<Range>, r: Range, x: nat, m: Mode)
    requires out != [] && out[|out| - 1].start < out[|out| - 1].end == r.start < r.end && out[|out| - 1].mode == r.mode
    ensures Covers(out[|out| - 1 := out[|out| - 1].(end := r.end)], x, m) <==>
      Covers(out, x, m) || (Within(r, x) && r.mode == m)
  {
    var n := |out| - 1;
    var last := out[n].(end := r.end);
    assert out == out[..n] + [out[n]] && out[n := last] == out[..n] + [last];
    CoversSnoc(out[..n], out[n], x, m);
    CoversSnoc(out[..n], last, x, m);
  }

  lemma JoinStep(out: seq<Range>, out': seq<Range>, s: seq<Range>, k: nat)
    requires k < |s| && SameMeaning(out, s[..k])
    requires forall x: nat, m :: Covers(out', x, m) <==> Covers(out, x, m) || (Within(s[k], x) && s[k].mode == m)
    ensures SameMeaning(out', s[..k + 1])
  {
    hide Covers, Within;
    assert s[..k + 1] == s[..k] + [s[k]];
    forall x: nat, m ensures Covers(out', x, m) <==> Covers(s[..k + 1], x, m) { CoversSnoc(s[..k], s[k], x, m); }
  }

  predicate Follows(out: seq<Range>, r: Range) {
    r.start < r.end <= TOP && (out != [] ==> out[|out| - 1].end <= r.start)
  }

  lemma AppendNormal(out: seq<Range>, r: Range)
    requires Apart(out) && Merged(out) && Follows(out, r)
    requires out != [] ==> out[|out| - 1].end < r.start || out[|out| - 1].mode != r.mode
    ensures Apart(out + [r]) && Merged(out + [r])
  {
  }

  lemma ExtendNormal(out: seq<Range>, r: Range)
    requires Apart(out) && Merged(out) && Follows(out, r) && out != []
    ensures Apart(out[|out| - 1 := out[|out| - 1].(end := r.end)])
    ensures Merged(out[|out| - 1 := out[|out| - 1].(end := r.end)])
  {
  }

  lemma Next(s: seq<Range>, k: nat)
    requires Apart(s) && k < |s|
    ensures s[k].start < s[k].end <= TOP && (k > 0 ==> s[k - 1].end <= s[k].start)
  {
  }

  lemma LastRange(out: seq<Range>)
    requires Apart(out) && out != []
    ensures out[|out| - 1].start < out[|out| - 1].end
  {
  }

  method Join(s: seq<Range>) returns (out: seq<Range>)
    requires Apart(s)
    ensures Apart(out) && Merged(out) && SameMeaning(out, s) && |out| <= |s|
  {
    hide Covers, Within, SameMeaning, Apart, Merged;
    out := [];
    NothingMeant(s);
    for k := 0 to |s|
      invariant Apart(out) && Merged(out) && SameMeaning(out, s[..k]) && |out| <= k
      invariant out != [] ==> k > 0 && out[|out| - 1].end == s[k - 1].end
    {
      var r := s[k];
      ghost var before := out;
      Next(s, k);
      if out != [] && out[|out| - 1].end == r.start && out[|out| - 1].mode == r.mode {
        ExtendNormal(out, r);
        LastRange(out);
        out := out[|out| - 1 := out[|out| - 1].(end := r.end)];
        forall x: nat, m ensures Covers(out, x, m) <==> Covers(before, x, m) || (Within(r, x) && r.mode == m) {
          ExtendMeans(before, r, x, m);
        }
      } else {
        AppendNormal(out, r);
        out := out + [r];
        forall x: nat, m ensures Covers(out, x, m) <==> Covers(before, x, m) || (Within(r, x) && r.mode == m) {
          CoversSnoc(before, r, x, m);
        }
      }
      JoinStep(before, out, s, k);
    }
    assert s[..|s|] == s;
  }

  lemma CoversHead(a: seq<Range>, x: nat, m: Mode)
    requires Apart(a) && a != []
    ensures Covers(a[1..], x, m) <==> Covers(a, x, m) && x >= a[0].end
  {
    if Covers(a[1..], x, m) {
      var r :| r in a[1..] && Within(r, x) && r.mode == m;
      assert r in a && a[0].end <= r.start;
    }
    if Covers(a, x, m) && x >= a[0].end {
      var r :| r in a && Within(r, x) && r.mode == m;
      assert r in a[1..];
    }
  }

  /** The first byte a list covers is its first range's, in that range's mode. */
  lemma FirstCovered(a: seq<Range>, x: nat, m: Mode)
    requires Apart(a) && Covers(a, x, m)
    ensures a != [] && a[0].start <= x && (x < a[0].end ==> m == a[0].mode)
  {
  }

  lemma HeadCovers(a: seq<Range>, x: nat)
    requires a != [] && Within(a[0], x)
    ensures Covers(a, x, a[0].mode)
  {
    assert a[0] in a;
  }

  /** The byte after a merged list's first range is not covered in the same mode. */
  lemma HeadEnds(a: seq<Range>)
    requires Apart(a) && Merged(a) && a != []
    ensures !Covers(a, a[0].end, a[0].mode)
  {
    forall j | 1 < j < |a| ensures a[0].end < a[j].start {
      assert a[0].end <= a[1].start < a[1].end <= a[j].start;
    }
  }

  lemma SameHead(a: seq<Range>, b: seq<Range>)
    requires Apart(a) && Merged(a) && Apart(b) && Merged(b) && SameMeaning(a, b) && a != [] && b != []
    ensures a[0].start == b[0].start && a[0].mode == b[0].mode && a[0].end <= b[0].end
  {
    hide Covers, Apart, Merged;
    HeadFacts(a);
    HeadFacts(b);
    HeadCovers(a, a[0].start);
    HeadCovers(b, b[0].start);
    FirstCovered(b, a[0].start, a[0].mode);
    FirstCovered(a, b[0].start, b[0].mode);
    if b[0].end < a[0].end {
      HeadEnds(b);
      HeadCovers(a, b[0].end);
    }
  }

  lemma BothEmpty(a: seq<Range>, b: seq<Range>)
    requires Apart(a) && Apart(b) && SameMeaning(a, b)
    ensures a == [] <==> b == []
  {
    hide Covers, Apart;
    if a != [] { HeadFacts(a); HeadCovers(a, a[0].start); FirstCovered(b, a[0].start, a[0].mode); }
    if b != [] { HeadFacts(b); HeadCovers(b, b[0].start); FirstCovered(a, b[0].start, b[0].mode); }
  }

  lemma TailsSame(a: seq<Range>, b: seq<Range>)
    requires Apart(a) && Apart(b) && SameMeaning(a, b) && a != [] && b != [] && a[0] == b[0]
    ensures SameMeaning(a[1..], b[1..])
  {
    hide Covers, Apart;
    forall x: nat, m ensures Covers(a[1..], x, m) <==> Covers(b[1..], x, m) {
      CoversHead(a, x, m);
      CoversHead(b, x, m);
    }
  }

  /** A normal list is determined by what it covers. */
  lemma {:induction false} NormalUnique(a: seq<Range>, b: seq<Range>)
    requires Apart(a) && Merged(a) && Apart(b) && Merged(b) && SameMeaning(a, b)
    ensures a == b
  {
    hide Covers, Apart, Merged, SameMeaning;
    BothEmpty(a, b);
    if a != [] {
      assert SameMeaning(b, a) by { SameSym(a, b); }
      SameHead(a, b);
      SameHead(b, a);
      TailsSame(a, b);
      TailNormal(a);
      TailNormal(b);
      NormalUnique(a[1..], b[1..]);
      assert a == [a[0]] + a[1..] && b == [b[0]] + b[1..];
    }
  }

  lemma SameSym(a: seq<Range>, b: seq<Range>)
    requires SameMeaning(a, b)
    ensures SameMeaning(b, a)
  {
    hide Covers;
  }

  lemma HeadFacts(a: seq<Range>)
    requires Apart(a) && a != []
    ensures a[0].start < a[0].end && Within(a[0], a[0].start)
  {
  }

  lemma TailNormal(a: seq<Range>)
    requires Apart(a) && Merged(a) && a != []
    ensures Apart(a[1..]) && Merged(a[1..])
  {
  }

  lemma NothingMeant(s: seq<Range>)
    ensures SameMeaning([], s[..0]) && Apart([]) && Merged([])
  {
  }

  // ---- Taking a lock ----

  /** The new list: the old meaning, overridden on the requested interval. */
  ghost predicate Overridden(next: seq<Range>, locks: seq<Range>, start: nat, end: nat, mode: Option<Mode>) {
    forall x: nat, m :: Covers(next, x, m) <==> if start <= x < end then mode == Some(m) else Covers(locks, x, m)
  }

  lemma InsertMeans(a: seq<Range>, r: Range, x: nat, m: Mode)
    requires Apart(a) && AllClear(a, r.start, r.end) && r.start < r.end <= TOP
    ensures Covers(Insert(a, r), x, m) <==> Covers(a, x, m) || (Within(r, x) && r.mode == m)
  {
    hide Apart, AllClear;
    InsertApart(a, r);
    if Covers(a, x, m) { var q :| q in a && Within(q, x) && q.mode == m; assert q in Insert(a, r); }
    if Within(r, x) && r.mode == m { assert r in Insert(a, r); }
  }

  /** Cut, add, sort and join: the list before the length check. */
  method Rebuild(locks: seq<Range>, start: nat, end: nat, mode: Option<Mode>) returns (next: seq<Range>)
    requires Apart(locks) && start < end <= TOP
    ensures Apart(next) && Merged(next) && Overridden(next, locks, start, end, mode)
    ensures start == 0 && end == TOP && mode.None? ==> next == []
  {
    hide Apart, Merged, AllClear, Covers, CutOf, SameMeaning;
    var cut := Cut(locks, start, end);
    var all := cut;
    SortedAlready(cut);
    if mode.Some? {
      var r := Range(start, end, mode.value);
      all := all + [r];
      assert all[..|cut|] == cut;
      InsertApart(cut, r);
    }
    var sorted := SortByStart(all);
    next := Join(sorted);
    Rebuilt(locks, cut, sorted, next, start, end, mode);
  }

  lemma Rebuilt(locks: seq<Range>, cut: seq<Range>, sorted: seq<Range>, next: seq<Range>, start: nat, end: nat,
                mode: Option<Mode>)
    requires Apart(cut) && AllClear(cut, start, end) && start < end <= TOP && CutOf(cut, locks, start, end)
    requires SameMeaning(next, sorted)
    requires sorted == if mode.Some? then Insert(cut, Range(start, end, mode.value)) else cut
    ensures Overridden(next, locks, start, end, mode)
  {
    hide Apart, AllClear, Covers;
    forall x: nat, m ensures Covers(next, x, m) <==> if start <= x < end then mode == Some(m) else Covers(locks, x, m) {
      if mode.Some? { InsertMeans(cut, Range(start, end, mode.value), x, m); }
    }
  }

  // ---- The table of open descriptions ----

  /** Lock state shared by every handle of one open. */
  class Description {
    var locks: seq<Range>

    constructor ()
      ensures locks == []
    {
      locks := [];
    }
  }

  /** A handle: the file it is open on, and its shared description. */
  datatype Opened = Opened(file: Bytes, description: Description)

  datatype Request = Take(mode: Mode) | Unlock

  datatype Answer = Granted | Refused | Invalid

  /** No byte is exclusive in one list and locked at all in the other. */
  ghost predicate Compatible(a: seq<Range>, b: seq<Range>) {
    forall x: nat, m :: !(Covers(a, x, Exclusive) && Covers(b, x, m)) && !(Covers(b, x, Exclusive) && Covers(a, x, m))
  }

  /** A requested mode on an interval meets a held one that forbids it. */
  predicate Clashes(locks: seq<Range>, start: nat, end: nat, mode: Mode) {
    exists r :: r in locks && start < r.end && r.start < end && (mode == Exclusive || r.mode == Exclusive)
  }

  /** The interval test is the pointwise conflict. */
  lemma ClashIs(locks: seq<Range>, start: nat, end: nat, mode: Mode)
    requires Apart(locks) && start < end
    ensures Clashes(locks, start, end, mode) <==>
      exists x: nat, m :: start <= x < end && Covers(locks, x, m) && (mode == Exclusive || m == Exclusive)
  {
    if Clashes(locks, start, end, mode) {
      var r :| r in locks && start < r.end && r.start < end && (mode == Exclusive || r.mode == Exclusive);
      var x := if start > r.start then start else r.start;
      assert Within(r, x) && Covers(locks, x, r.mode);
    }
    if x: nat, m :| start <= x < end && Covers(locks, x, m) && (mode == Exclusive || m == Exclusive) {
      var r :| r in locks && Within(r, x) && r.mode == m;
      assert Clashes(locks, start, end, mode);
    }
  }

  /** Without a clash, the overridden list stays compatible with the other's. */
  lemma StaysCompatible(next: seq<Range>, locks: seq<Range>, other: seq<Range>, start: nat, end: nat,
                        mode: Option<Mode>)
    requires Compatible(locks, other) && Apart(other) && start < end && Overridden(next, locks, start, end, mode)
    requires mode.Some? ==> !Clashes(other, start, end, mode.value)
    ensures Compatible(next, other)
  {
    hide Covers, Apart, Clashes;
    if mode.Some? { ClashIs(other, start, end, mode.value); }
  }

  /** The interval lies in the signed offset space; length 0 reaches its end. */
  predicate Legal(start: nat, length: nat) {
    start < TOP && (length == 0 || length <= TOP - start)
  }

  function EndOf(start: nat, length: nat): nat {
    if length > 0 then start + length else TOP
  }

  function ModeOf(request: Request): Option<Mode> {
    if request.Take? then Some(request.mode) else None
  }

  /** If the rebuilt list is too long, no list with its meaning is short enough. */
  lemma TooMany(next: seq<Range>, locks: seq<Range>, start: nat, end: nat, mode: Option<Mode>)
    requires Apart(next) && Merged(next) && Overridden(next, locks, start, end, mode) && |next| > MAX_RANGES
    ensures !exists other :: Normal(other) && Overridden(other, locks, start, end, mode)
  {
    hide Apart, Merged, Covers;
    forall other | Normal(other) && Overridden(other, locks, start, end, mode) ensures false {
      assert SameMeaning(next, other);
      NormalUnique(next, other);
    }
  }

  class Table {
    var handles: map<Token, Opened>

    ghost predicate Valid()
      reads this, set t | t in handles :: handles[t].description
    {
      (forall t :: t in handles ==> Normal(handles[t].description.locks)) &&
      (forall t, u :: t in handles && u in handles && handles[t].description == handles[u].description ==>
        handles[t].file == handles[u].file) &&
      (forall t, u ::
        t in handles && u in handles &&
        handles[t].description != handles[u].description && handles[t].file == handles[u].file ==>
        Compatible(handles[t].description.locks, handles[u].description.locks))
    }

    constructor ()
      ensures Valid() && handles == map[]
    {
      handles := map[];
    }

    /** A new open gets a description of its own, with no locks. */
    method Open(token: Token, file: Bytes)
      requires Valid() && token !in handles
      modifies this
      ensures Valid() && token in handles && handles == old(handles)[token := handles[token]]
      ensures handles[token].file == file
      ensures fresh(handles[token].description) && handles[token].description.locks == []
    {
      hide Normal, Compatible;
      forall t | t in handles
        ensures Compatible([], handles[t].description.locks) && Compatible(handles[t].description.locks, [])
      {
        EmptyCompatible(handles[t].description.locks);
      }
      EmptyCompatible([]);
      var d := new Description();
      handles := handles[token := Opened(file, d)];
    }

    /** A duplicate shares its original's description. */
    method Dup(token: Token, copy: Token)
      requires Valid() && token in handles && copy !in handles
      modifies this
      ensures Valid() && handles == old(handles)[copy := old(handles)[token]]
    {
      hide Normal, Compatible;
      handles := handles[copy := handles[token]];
    }

    method Close(token: Token)
      requires Valid()
      modifies this
      ensures Valid() && handles == old(handles) - {token}
    {
      hide Normal, Compatible;
      handles := handles - {token};
    }

    /** Whether another description of the file forbids the request. */
    predicate Blocked(token: Token, start: nat, end: nat, request: Request)
      reads this, set t | t in handles :: handles[t].description
      requires token in handles
    {
      request.Take? &&
      (exists t ::
        t in handles && handles[t].description != handles[token].description &&
        handles[t].file == handles[token].file && Clashes(handles[t].description.locks, start, end, request.mode))
    }

    /** It is blocked exactly if some byte of the interval is locked by another open of the
        same file, and one of the two locks is exclusive. */
    lemma BlockedIs(token: Token, start: nat, end: nat, request: Request)
      requires Valid() && token in handles && start < end
      ensures Blocked(token, start, end, request) <==>
        request.Take? &&
        exists t, x: nat, m ::
          t in handles && handles[t].description != handles[token].description &&
          handles[t].file == handles[token].file && start <= x < end &&
          Covers(handles[t].description.locks, x, m) && (request.mode == Exclusive || m == Exclusive)
    {
      hide Covers, Compatible, Clashes, Merged;
      if request.Take? {
        forall t | t in handles
          ensures Clashes(handles[t].description.locks, start, end, request.mode) <==>
            exists x: nat, m ::
              start <= x < end && Covers(handles[t].description.locks, x, m) &&
              (request.mode == Exclusive || m == Exclusive)
        {
          ClashIs(handles[t].description.locks, start, end, request.mode);
        }
      }
    }

    /** Takes or drops a lock. Granted exactly when the interval is legal, no other open
        forbids it and the list that means the old one overridden on the interval fits; that
        list is then the new one. Refused exactly on a conflict, and then, as when invalid,
        nothing changes. */
    method TryLock(token: Token, request: Request, start: nat, length: nat) returns (answer: Answer)
      requires Valid()
      modifies set t | t in handles :: handles[t].description
      ensures Valid()
      ensures answer != Granted ==>
        forall t :: t in handles ==> handles[t].description.locks == old(handles[t].description.locks)
      ensures answer == Refused <==>
        token in handles && Legal(start, length) && old(Blocked(token, start, EndOf(start, length), request))
      ensures answer == Granted <==>
        token in handles && Legal(start, length) && !old(Blocked(token, start, EndOf(start, length), request)) &&
        var locks := old(handles[token].description.locks);
        exists next :: Normal(next) && Overridden(next, locks, start, EndOf(start, length), ModeOf(request))
      ensures answer == Granted ==>
        forall t :: t in handles && handles[t].description != handles[token].description ==>
          handles[t].description.locks == old(handles[t].description.locks)
      ensures answer == Granted ==>
        Overridden(handles[token].description.locks, old(handles[token].description.locks),
                   start, EndOf(start, length), ModeOf(request))
      ensures token in handles && request.Unlock? && start == 0 && length == 0 ==>
        answer == Granted && handles[token].description.locks == []
      ensures answer == Refused <==>
        token in handles && start < TOP && start + length <= TOP && request.Take? &&
        exists t, x: nat, m ::
          t in handles && handles[t].description != handles[token].description &&
          handles[t].file == handles[token].file && start <= x < TOP && (length > 0 ==> x < start + length) &&
          old(Covers(handles[t].description.locks, x, m)) && (request.mode == Exclusive || m == Exclusive)
      ensures answer == Granted ==>
        forall x: nat, m ::
          Covers(handles[token].description.locks, x, m) <==>
            if start <= x < TOP && (length > 0 ==> x < start + length) then request.Take? && request.mode == m
            else old(Covers(handles[token].description.locks, x, m))
    {
      hide Apart, Merged, Compatible, Clashes, Covers, Overridden;
      if token !in handles || !Legal(start, length) { return Invalid; }
      var end := EndOf(start, length);
      BlockedIs(token, start, end, request);
      if Blocked(token, start, end, request) { return Refused; }
      var d, mode := handles[token].description, ModeOf(request);
      var next := Rebuild(d.locks, start, end, mode);
      if |next| > MAX_RANGES { TooMany(next, d.locks, start, end, mode); return Invalid; }
      forall t | t in handles && handles[t].description != d && handles[t].file == handles[token].file
        ensures Compatible(next, handles[t].description.locks) && Compatible(handles[t].description.locks, next)
      {
        StaysCompatible(next, d.locks, handles[t].description.locks, start, end, mode);
        CompatibleSym(next, handles[t].description.locks);
      }
      LockedBelow(d.locks);
      OverriddenIs(next, d.locks, start, end, mode);
      d.locks := next;
      return Granted;
    }
  }

  /** No lock reaches the top of the offset space. */
  lemma LockedBelow(locks: seq<Range>)
    requires Apart(locks)
    ensures forall x: nat, m :: Covers(locks, x, m) ==> x < TOP
  {
  }

  lemma OverriddenIs(next: seq<Range>, locks: seq<Range>, start: nat, end: nat, mode: Option<Mode>)
    requires Overridden(next, locks, start, end, mode)
    ensures forall x: nat, m ::
      Covers(next, x, m) <==> if start <= x < end then mode == Some(m) else Covers(locks, x, m)
  {
    hide Covers;
  }

  lemma EmptyCompatible(b: seq<Range>)
    ensures Compatible([], b) && Compatible(b, []) && Normal([])
  {
  }

  lemma CompatibleSym(a: seq<Range>, b: seq<Range>)
    requires Compatible(a, b)
    ensures Compatible(b, a)
  {
    hide Covers;
  }
}
