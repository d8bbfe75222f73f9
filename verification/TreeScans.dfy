/** Prefix scans, pages and the directory cursor over a pinned tree
    (daemon/metadata_tree.cpp, daemon/namespace.cpp). */
module TreeScans {
  import opened Bytes
  import opened JournalCodec
  import opened Treap
  import opened MetadataTree

  predicate Wanted(k: Key, prefix: Key, after: Key) {
    StartsWith(k, prefix) && (after == [] || Less(after, k))
  }

  /** The wanted keys of a tree, in order. */
  function Matching(t: Id, prefix: Key, after: Key): seq<Key> {
    if t.Zero? then []
    else
      var here := if Wanted(t.key, prefix, after) then [t.key] else [];
      Matching(t.left, prefix, after) + here + Matching(t.right, prefix, after)
  }

  ghost function WantedKeys(t: Id, prefix: Key, after: Key): set<Key> {
    set k | k in Keys(t) && Wanted(k, prefix, after)
  }

  lemma {:induction false} MatchingElements(t: Id, prefix: Key, after: Key)
    ensures forall k :: k in Matching(t, prefix, after) <==> k in WantedKeys(t, prefix, after)
  {
    hide Wanted;
    if t.Node? {
      MatchingElements(t.left, prefix, after);
      MatchingElements(t.right, prefix, after);
    }
  }

  lemma SortedConcat(a: seq<Key>, b: seq<Key>)
    requires Sorted(a) && Sorted(b) && forall x, y :: x in a && y in b ==> Less(x, y)
    ensures Sorted(a + b)
  {
    hide Less;
    forall i, j | 0 <= i < j < |a + b| ensures Less((a + b)[i], (a + b)[j]) {
      if i < |a| && j >= |a| { assert a[i] in a && b[j - |a|] in b; }
    }
  }

  lemma {:induction false} MatchingSorted(p: Priority, t: Id, prefix: Key, after: Key)
    requires Ordered(p, t)
    ensures Sorted(Matching(t, prefix, after))
  {
    hide Less, Wanted, Under;
    if t.Node? {
      MatchingSorted(p, t.left, prefix, after);
      MatchingSorted(p, t.right, prefix, after);
      MatchingElements(t.left, prefix, after);
      MatchingElements(t.right, prefix, after);
      AboveBelow(Keys(t.left), t.key, Keys(t.right));
      var here := if Wanted(t.key, prefix, after) then [t.key] else [];
      SortedConcat(Matching(t.left, prefix, after), here);
      SortedConcat(Matching(t.left, prefix, after) + here, Matching(t.right, prefix, after));
    }
  }

  /** A scan is exactly the sorted listing of the wanted keys. */
  lemma MatchingIs(p: Priority, t: Id, prefix: Key, after: Key)
    requires Ordered(p, t)
    ensures Matching(t, prefix, after) == SortedKeys(WantedKeys(t, prefix, after))
  {
    hide Ordered, Matching, WantedKeys, SortedKeys;
    MatchingSorted(p, t, prefix, after);
    MatchingElements(t, prefix, after);
    SortedUnique(Matching(t, prefix, after), SortedKeys(WantedKeys(t, prefix, after)));
  }

  lemma {:induction false} NothingMatches(t: Id, prefix: Key, after: Key)
    requires forall k :: k in Keys(t) ==> !Wanted(k, prefix, after)
    ensures Matching(t, prefix, after) == []
  {
    hide Wanted;
    if t.Node? {
      NothingMatches(t.left, prefix, after);
      NothingMatches(t.right, prefix, after);
    }
  }

  // ---- Pruning ----

  /** The least string above every string with this prefix; None when there is none. */
  function Upper(prefix: Key): Option<Key> {
    if prefix == [] then None
    else
      var n := |prefix| - 1;
      if prefix[n] == 255 then Upper(prefix[..n]) else Some(prefix[..n] + [prefix[n] + 1])
  }

  lemma {:induction false} PrefixNotLess(k: Key, prefix: Key)
    requires StartsWith(k, prefix)
    ensures !Less(k, prefix)
  {
    if prefix != [] {
      assert k[..|prefix|] == prefix;
      assert k[0] == prefix[0];
      assert k[1..][..|prefix| - 1] == prefix[1..];
      PrefixNotLess(k[1..], prefix[1..]);
    }
  }

  lemma {:induction false} BumpedAbove(k: Key, stem: Key, c: byte)
    requires |k| > |stem| && k[..|stem|] == stem && k[|stem|] < c
    ensures Less(k, stem + [c])
  {
    var s := stem + [c];
    if stem != [] {
      assert k[0] == stem[0];
      assert k[1..][..|stem| - 1] == stem[1..];
      assert s[1..] == stem[1..] + [c];
      BumpedAbove(k[1..], stem[1..], c);
    }
  }

  lemma {:induction false} UpperAbove(k: Key, prefix: Key)
    requires StartsWith(k, prefix) && Upper(prefix).Some?
    ensures Less(k, Upper(prefix).value)
  {
    var n := |prefix| - 1;
    assert k[..n] == k[..|prefix|][..n] == prefix[..n];
    assert k[n] == k[..|prefix|][n] == prefix[n];
    if prefix[n] == 255 {
      UpperAbove(k, prefix[..n]);
    } else {
      BumpedAbove(k, prefix[..n], prefix[n] + 1);
    }
  }

  lemma LessEqualTransitive(a: Key, b: Key, c: Key)
    requires Less(a, b) && !Less(c, b)
    ensures Less(a, c)
  {
    LessTotal(b, c);
    if Less(b, c) { LessTransitive(a, b, c); }
  }

  lemma PruneLeft(p: Priority, t: Id, prefix: Key, after: Key)
    requires t.Node? && Ordered(p, t)
    requires if after == [] then !Less(prefix, t.key) else !Less(after, t.key)
    ensures Matching(t.left, prefix, after) == []
  {
    hide Less, Higher, Under, StartsWith;
    forall k | k in Keys(t.left) ensures !Wanted(k, prefix, after) {
      if after == [] {
        LessEqualTransitive(k, t.key, prefix);
        if StartsWith(k, prefix) { PrefixNotLess(k, prefix); }
      } else {
        LessEqualTransitive(k, t.key, after);
        LessAsymmetric(k, after);
      }
    }
    NothingMatches(t.left, prefix, after);
  }

  lemma PruneRight(p: Priority, t: Id, prefix: Key, after: Key)
    requires t.Node? && Ordered(p, t) && Upper(prefix).Some? && !Less(t.key, Upper(prefix).value)
    ensures Matching(t.right, prefix, after) == []
  {
    hide Less, Higher, Under, StartsWith, Upper;
    var u := Upper(prefix).value;
    forall k | k in Keys(t.right) ensures !Wanted(k, prefix, after) {
      if StartsWith(k, prefix) {
        UpperAbove(k, prefix);
        LessTransitive(t.key, k, u);
      }
    }
    NothingMatches(t.right, prefix, after);
  }

  // ---- Scanning ----

  lemma MatchingNode(t: Id, prefix: Key, after: Key, acc: seq<Key>)
    requires t.Node?
    ensures acc + Matching(t, prefix, after) ==
            acc + Matching(t.left, prefix, after) + (if Wanted(t.key, prefix, after) then [t.key] else []) +
              Matching(t.right, prefix, after)
  {
    hide Wanted;
  }

  lemma Children(p: Priority, t: Id)
    requires t.Node? && Ordered(p, t)
    ensures Ordered(p, t.left) && Ordered(p, t.right)
  {
    hide Below, Above, Under;
  }

  /** The pruned prefix walk; it can only run out of depth on a tree deeper than the limit. */
  method ScanKeys(ghost p: Priority, t: Id, prefix: Key, depth: nat, acc: seq<Key>) returns (result: Option<seq<Key>>)
    requires Ordered(p, t)
    ensures depth + Height(t) <= MAX_DEPTH ==> result.Some?
    ensures result.Some? ==> result.value == acc + Matching(t, prefix, [])
    decreases t
  {
    hide Less, StartsWith, Upper, Ordered, Height, Matching;
    if t.Zero? { EmptyFits(t, prefix, []); return Some(acc); }
    HeightChild(t);
    if depth >= MAX_DEPTH { return None; }
    Children(p, t);
    MatchingNode(t, prefix, [], acc);
    var found := acc;
    if !Less(t.key, prefix) {
      var l := ScanKeys(p, t.left, prefix, depth + 1, found);
      if l.None? { return None; }
      found := l.value;
    } else {
      LessAsymmetric(t.key, prefix);
      PruneLeft(p, t, prefix, []);
    }
    assert found == acc + Matching(t.left, prefix, []);
    if StartsWith(t.key, prefix) { found := found + [t.key]; }
    var upper := Upper(prefix);
    if upper.None? || Less(t.key, upper.value) {
      var r := ScanKeys(p, t.right, prefix, depth + 1, found);
      if r.None? { return None; }
      found := r.value;
    } else {
      PruneRight(p, t, prefix, []);
    }
    return Some(found);
  }

  function Take(s: seq<Key>, limit: nat): seq<Key> {
    if |s| <= limit then s else s[..limit]
  }

  lemma TakeMore(a: seq<Key>, b: seq<Key>, limit: nat)
    ensures Take(Take(a, limit) + b, limit) == Take(a + b, limit)
  {
  }

  /** The bounded walk behind a page: stop as soon as the page is full. */
  method ScanPage(ghost p: Priority, t: Id, prefix: Key, after: Key, limit: nat, depth: nat, acc: seq<Key>)
    returns (result: Option<seq<Key>>)
    requires Ordered(p, t) && |acc| <= limit
    ensures depth + Height(t) <= MAX_DEPTH ==> result.Some?
    ensures result.Some? ==> result.value == Take(acc + Matching(t, prefix, after), limit)
    decreases t
  {
    hide Less, StartsWith, Upper, Ordered, Height, Matching;
    if t.Zero? { EmptyFits(t, prefix, after); return Some(acc); }
    if |acc| == limit { return Some(acc); }
    HeightChild(t);
    if depth >= MAX_DEPTH { return None; }
    Children(p, t);
    MatchingNode(t, prefix, after, acc);
    var found := acc;
    var lower := if after == [] then prefix else after;
    ghost var left := Matching(t.left, prefix, after);
    ghost var here := if Wanted(t.key, prefix, after) then [t.key] else [];
    ghost var right := Matching(t.right, prefix, after);
    if Less(lower, t.key) {
      var l := ScanPage(p, t.left, prefix, after, limit, depth + 1, found);
      if l.None? { return None; }
      found := l.value;
    } else {
      PruneLeft(p, t, prefix, after);
    }
    assert found == Take(acc + left, limit);
    TakeMore(acc + left, here, limit);
    TakeMore(acc + left + here, right, limit);
    if |found| == limit { return Some(found); }
    if Wanted(t.key, prefix, after) { found := found + [t.key]; }
    assert found == Take(acc + left + here, limit);
    var upper := Upper(prefix);
    if |found| < limit && (upper.None? || Less(t.key, upper.value)) {
      var r := ScanPage(p, t.right, prefix, after, limit, depth + 1, found);
      if r.None? { return None; }
      found := r.value;
    } else if |found| < limit {
      PruneRight(p, t, prefix, after);
    }
    return Some(found);
  }

  /** The keys under a prefix, in order. */
  method KeysUnder(ghost p: Priority, t: Id, prefix: Key) returns (keys: Option<seq<Key>>)
    requires Ordered(p, t)
    ensures Height(t) <= MAX_DEPTH ==> keys.Some?
    ensures keys.Some? ==> keys.value == SortedKeys(WantedKeys(t, prefix, []))
  {
    hide Ordered, Matching, WantedKeys, SortedKeys, Height;
    keys := ScanKeys(p, t, prefix, 0, []);
    MatchingIs(p, t, prefix, []);
  }

  /** The first `limit` keys under a prefix after a continuation key; None for a request
      the source refuses. */
  method Page(ghost p: Priority, t: Id, prefix: Key, after: Key, limit: nat) returns (keys: Option<seq<Key>>)
    requires Ordered(p, t)
    ensures keys.Some? ==> 0 < limit <= 1025 && (after == [] || StartsWith(after, prefix))
    ensures 0 < limit <= 1025 && (after == [] || StartsWith(after, prefix)) && Height(t) <= MAX_DEPTH ==> keys.Some?
    ensures keys.Some? ==> keys.value == Take(SortedKeys(WantedKeys(t, prefix, after)), limit)
  {
    hide Ordered, Matching, WantedKeys, SortedKeys, Height, StartsWith;
    if limit == 0 || limit > 1025 || (after != [] && !StartsWith(after, prefix)) { return None; }
    keys := ScanPage(p, t, prefix, after, limit, 0, []);
    MatchingIs(p, t, prefix, after);
    assert [] + Matching(t, prefix, after) == Matching(t, prefix, after);
  }

  // ---- The full check ----

  predicate Within(k: Key, lo: Option<Key>, hi: Option<Key>) {
    (lo.Some? ==> Less(lo.value, k)) && (hi.Some? ==> Less(k, hi.value))
  }

  /** What the source's full walk checks: bounds from above, and each child against its parent. */
  predicate Bounded(p: Priority, t: Id, lo: Option<Key>, hi: Option<Key>) {
    t.Zero? ||
    (Within(t.key, lo, hi) && (t.left.Node? ==> !Higher(p, t.left.key, t.key)) &&
     (t.right.Node? ==> !Higher(p, t.right.key, t.key)) &&
     Bounded(p, t.left, lo, Some(t.key)) && Bounded(p, t.right, Some(t.key), hi))
  }

  lemma WithinWider(k: Key, lo: Option<Key>, hi: Option<Key>, m: Key)
    requires Within(m, lo, hi)
    ensures Within(k, lo, Some(m)) || Within(k, Some(m), hi) ==> Within(k, lo, hi)
  {
    hide Less;
    if Within(k, lo, Some(m)) && hi.Some? { LessTransitive(k, m, hi.value); }
    if Within(k, Some(m), hi) && lo.Some? { LessTransitive(lo.value, m, k); }
  }

  lemma {:induction false} BoundedOrdered(p: Priority, t: Id, lo: Option<Key>, hi: Option<Key>)
    requires Bounded(p, t, lo, hi)
    ensures Ordered(p, t) && forall k :: k in Keys(t) ==> Within(k, lo, hi)
  {
    hide Less, Higher;
    if t.Node? {
      BoundedOrdered(p, t.left, lo, Some(t.key));
      BoundedOrdered(p, t.right, Some(t.key), hi);
      forall k | k in Keys(t) ensures Within(k, lo, hi) { WithinWider(k, lo, hi, t.key); }
      if t.left.Node? { ChildUnder(p, t.key, t.left); }
      if t.right.Node? { ChildUnder(p, t.key, t.right); }
    }
  }

  lemma ChildUnder(p: Priority, k: Key, child: Id)
    requires child.Node? && Ordered(p, child) && !Higher(p, child.key, k) && (Less(k, child.key) || Less(child.key, k))
    ensures Under(p, k, Keys(child))
  {
    hide Less, Higher;
    LessIrreflexive(k);
    HigherTotal(p, k, child.key);
    UnderUnder(p, k, child.key, Keys(child.left) + Keys(child.right));
  }

  lemma {:induction false} OrderedBounded(p: Priority, t: Id, lo: Option<Key>, hi: Option<Key>)
    requires Ordered(p, t) && forall k :: k in Keys(t) ==> Within(k, lo, hi)
    ensures Bounded(p, t, lo, hi)
  {
    hide Less, Higher;
    if t.Node? {
      forall k | k in Keys(t.left) ensures Within(k, lo, Some(t.key)) { assert k in Keys(t); }
      forall k | k in Keys(t.right) ensures Within(k, Some(t.key), hi) { assert k in Keys(t); }
      if t.left.Node? { HigherAsymmetric(p, t.key, t.left.key); }
      if t.right.Node? { HigherAsymmetric(p, t.key, t.right.key); }
      OrderedBounded(p, t.left, lo, Some(t.key));
      OrderedBounded(p, t.right, Some(t.key), hi);
    }
  }

  /** The source's local checks hold exactly on trees in search and heap order. */
  lemma BoundedIffOrdered(p: Priority, t: Id)
    ensures Bounded(p, t, None, None) <==> Ordered(p, t)
  {
    hide Bounded, Ordered;
    if Bounded(p, t, None, None) { BoundedOrdered(p, t, None, None); }
    if Ordered(p, t) { OrderedBounded(p, t, None, None); }
  }

  ghost predicate Outside(s: set<Id>, lo: Option<Key>, hi: Option<Key>) {
    forall v :: v in s ==> v.Node? && !Within(v.key, lo, hi)
  }

  ghost predicate Inside(s: set<Id>, lo: Option<Key>, hi: Option<Key>) {
    forall v :: v in s ==> v.Node? && Within(v.key, lo, hi)
  }

  lemma OutsideLeft(s: set<Id>, t: Id, lo: Option<Key>, hi: Option<Key>)
    requires t.Node? && Within(t.key, lo, hi) && Outside(s, lo, hi)
    ensures Outside(s + {t}, lo, Some(t.key)) && Inside(s + {t} - s, lo, hi)
  {
    hide Less;
    LessIrreflexive(t.key);
    forall v | v in s ensures !Within(v.key, lo, Some(t.key)) { WithinWider(v.key, lo, hi, t.key); }
  }

  lemma OutsideRight(s: set<Id>, s': set<Id>, t: Id, lo: Option<Key>, hi: Option<Key>)
    requires t.Node? && Within(t.key, lo, hi) && Outside(s, lo, hi) && s + {t} <= s'
    requires Inside(s' - (s + {t}), lo, Some(t.key))
    ensures Outside(s', Some(t.key), hi) && Inside(s' - s, lo, hi)
  {
    hide Less;
    LessIrreflexive(t.key);
    forall v | v in s' ensures v.Node? && !Within(v.key, Some(t.key), hi) && (v !in s ==> Within(v.key, lo, hi)) {
      if v in s { WithinWider(v.key, lo, hi, t.key); }
      else if v != t { WithinWider(v.key, lo, hi, t.key); LessAsymmetric(v.key, t.key); }
    }
  }

  lemma InsideBoth(s: set<Id>, s': set<Id>, s'': set<Id>, t: Id, lo: Option<Key>, hi: Option<Key>)
    requires t.Node? && Within(t.key, lo, hi) && Inside(s' - s, lo, hi) && Inside(s'' - s', Some(t.key), hi)
    ensures Inside(s'' - s, lo, hi)
  {
    hide Less;
    forall v | v in s'' - s ensures v.Node? && Within(v.key, lo, hi) {
      if v in s' { assert v in s' - s; } else { assert v in s'' - s'; WithinWider(v.key, lo, hi, t.key); }
    }
  }

  /** The full walk accepts exactly the ordered trees within the depth limit, never trips
      over its own visited set on one, and returns the tree's map. */
  method Entries(p: Priority, t: Id) returns (result: Option<map<Key, Hash>>)
    ensures result == if Ordered(p, t) && Height(t) <= MAX_DEPTH then Some(Map(t)) else None
  {
    hide Bounded, Ordered, Map, Height;
    var visited;
    result, visited := WalkEntries(p, t, None, None, 0, {});
    BoundedIffOrdered(p, t);
    EmptyFits(t, [], []);
  }

  lemma EmptyFits(t: Id, prefix: Key, after: Key)
    ensures t.Zero? ==> Height(t) == 0 && Matching(t, prefix, after) == []
  {
  }

  lemma NodeFits(p: Priority, t: Id, lo: Option<Key>, hi: Option<Key>, depth: nat)
    requires t.Node?
    ensures Fitting(p, t, lo, hi, depth) <==>
      (Within(t.key, lo, hi) && depth < MAX_DEPTH && (t.left.Node? ==> !Higher(p, t.left.key, t.key)) &&
       (t.right.Node? ==> !Higher(p, t.right.key, t.key)) &&
       Fitting(p, t.left, lo, Some(t.key), depth + 1) && Fitting(p, t.right, Some(t.key), hi, depth + 1))
  {
    hide Within, Higher, Height;
    HeightFits(t, depth);
  }

  lemma HeightFits(t: Id, depth: nat)
    requires t.Node?
    ensures depth + Height(t) <= MAX_DEPTH <==>
      depth < MAX_DEPTH && (t.left.Zero? || depth + 1 + Height(t.left) <= MAX_DEPTH) &&
      (t.right.Zero? || depth + 1 + Height(t.right) <= MAX_DEPTH)
  {
  }

  lemma MapNode(t: Id)
    requires t.Node?
    ensures Map(t) == Map(t.left) + Map(t.right) + map[t.key := t.value]
  {
  }

  predicate Fitting(p: Priority, t: Id, lo: Option<Key>, hi: Option<Key>, depth: nat) {
    Bounded(p, t, lo, hi) && (t.Zero? || depth + Height(t) <= MAX_DEPTH)
  }

  method WalkEntries(p: Priority, t: Id, lo: Option<Key>, hi: Option<Key>, depth: nat, visited: set<Id>)
    returns (result: Option<map<Key, Hash>>, visited': set<Id>)
    requires depth <= MAX_DEPTH && Outside(visited, lo, hi)
    ensures result == if Fitting(p, t, lo, hi, depth) then Some(Map(t)) else None
    ensures visited <= visited' && Inside(visited' - visited, lo, hi)
    decreases t
  {
    hide Within, Higher, Outside, Fitting, Map;
    visited' := visited;
    if t.Zero? { ZeroFits(p, t, lo, hi, depth); return Some(map[]), visited'; }
    NodeFits(p, t, lo, hi, depth);
    MapNode(t);
    if !Within(t.key, lo, hi) { return None, visited'; }
    NotVisited(visited, t, lo, hi);
    if depth >= MAX_DEPTH || t in visited { return None, visited'; }
    OutsideLeft(visited, t, lo, hi);
    visited' := visited + {t};
    if (t.left.Node? && Higher(p, t.left.key, t.key)) || (t.right.Node? && Higher(p, t.right.key, t.key)) {
      return None, visited';
    }
    var l, r;
    l, visited' := WalkEntries(p, t.left, lo, Some(t.key), depth + 1, visited');
    OutsideRight(visited, visited', t, lo, hi);
    if l.None? { return None, visited'; }
    ghost var middle := visited';
    r, visited' := WalkEntries(p, t.right, Some(t.key), hi, depth + 1, visited');
    InsideBoth(visited, middle, visited', t, lo, hi);
    if r.None? { return None, visited'; }
    return Some(l.value + r.value + map[t.key := t.value]), visited';
  }

  lemma ZeroFits(p: Priority, t: Id, lo: Option<Key>, hi: Option<Key>, depth: nat)
    ensures t.Zero? ==> Fitting(p, t, lo, hi, depth) && Map(t) == map[]
  {
  }

  lemma NotVisited(s: set<Id>, t: Id, lo: Option<Key>, hi: Option<Key>)
    requires t.Node? && Within(t.key, lo, hi) && Outside(s, lo, hi)
    ensures t !in s
  {
  }

  // ---- The directory cursor ----

  /** A stream over one directory of a pinned tree. `position` counts what was read. */
  datatype DirectoryPage = DirectoryPage(names: seq<Key>, eof: bool)

  class Cursor {
    const p: Priority
    const tree: Id
    const prefix: Key
    var after: Key
    var done: bool
    ghost var position: nat

    ghost function All(): seq<Key>
    {
      Matching(tree, prefix, [])
    }

    ghost predicate Valid()
      reads this
    {
      Ordered(p, tree) && prefix != [] && Height(tree) <= MAX_DEPTH && position <= |All()| &&
      (if done then position == |All()|
       else if after == [] then position == 0
       else position > 0 && after == All()[position - 1])
    }

    constructor (priority: Priority, pinned: Id, directory: Key)
      requires Ordered(priority, pinned) && directory != [] && Height(pinned) <= MAX_DEPTH
      ensures Valid() && tree == pinned && prefix == directory && position == 0 && !done
    {
      p, tree, prefix, after, done, position := priority, pinned, directory, [], false, 0;
    }

    /** The next `limit` entries, and whether they were the last; a limit outside 1..1024 is refused. */
    method Read(limit: nat) returns (page: Option<DirectoryPage>)
      requires Valid()
      modifies this`after, this`done, this`position
      ensures Valid()
      ensures page.Some? <==> 1 <= limit <= 1024
      ensures page.None? ==> unchanged(this)
      ensures page.Some? ==>
        position == (if |All()| - old(position) <= limit then |All()| else old(position) + limit) &&
        page.value.names == All()[old(position)..position] &&
        page.value.eof == done && (done <==> position == |All()|)
    {
      hide Valid, All;
      if limit < 1 || limit > 1024 { return None; }
      var names, eof := Forward(limit);
      return Some(DirectoryPage(names, eof));
    }

    method Forward(limit: nat) returns (names: seq<Key>, eof: bool)
      requires Valid() && 1 <= limit <= 1024
      modifies this`after, this`done, this`position
      ensures Valid()
      ensures old(position) <= position <= |All()|
      ensures position == if |All()| - old(position) <= limit then |All()| else old(position) + limit
      ensures names == All()[old(position)..position]
      ensures eof == done && (eof <==> position == |All()|)
    {
      hide Ordered, Matching, Height;
      if done { return [], true; }
      var page := ScanPage(p, tree, prefix, after, limit + 1, 0, []);
      Continuation(p, tree, prefix, after, position);
      names := page.value;
      assert names == Take(All()[position..], limit + 1);
      eof := |names| <= limit;
      if !eof { names := names[..limit]; }
      if names != [] {
        assert names[|names| - 1] == All()[position + |names| - 1];
        KeysNonempty(p, tree, prefix, names[|names| - 1]);
        after := names[|names| - 1];
      }
      position := position + |names|;
      done := eof;
    }

    /** Starts over on the same pinned tree. */
    method Rewind()
      requires Valid()
      modifies this`after, this`done, this`position
      ensures Valid() && position == 0 && !done
    {
      after, done, position := [], false, 0;
    }
  }

  lemma {:induction false} MatchingAfter(p: Priority, t: Id, prefix: Key, after: Key)
    requires after != []
    ensures Matching(t, prefix, after) == Keep(Matching(t, prefix, []), after)
  {
    hide Less, StartsWith;
    if t.Node? {
      MatchingAfter(p, t.left, prefix, after);
      MatchingAfter(p, t.right, prefix, after);
      var here := if Wanted(t.key, prefix, []) then [t.key] else [];
      KeepConcat(Matching(t.left, prefix, []), here, after);
      KeepConcat(Matching(t.left, prefix, []) + here, Matching(t.right, prefix, []), after);
      assert here == [t.key] ==> here[1..] == [];
    }
  }

  function Keep(s: seq<Key>, after: Key): seq<Key> {
    if s == [] then [] else (if Less(after, s[0]) then [s[0]] else []) + Keep(s[1..], after)
  }

  lemma {:induction false} KeepConcat(a: seq<Key>, b: seq<Key>, after: Key)
    ensures Keep(a + b, after) == Keep(a, after) + Keep(b, after)
  {
    hide Less;
    if a == [] {
      assert a + b == b;
    } else {
      assert (a + b)[1..] == a[1..] + b;
      KeepConcat(a[1..], b, after);
    }
  }

  lemma {:induction false} KeepAll(s: seq<Key>, after: Key)
    requires forall k :: k in s ==> Less(after, k)
    ensures Keep(s, after) == s
  {
    hide Less;
    if s != [] { KeepAll(s[1..], after); }
  }

  lemma {:induction false} KeepNone(s: seq<Key>, after: Key)
    requires forall k :: k in s ==> !Less(after, k)
    ensures Keep(s, after) == []
  {
    hide Less;
    if s != [] { KeepNone(s[1..], after); }
  }

  /** Continuing after the last key read picks up exactly what is left. */
  lemma Continuation(p: Priority, t: Id, prefix: Key, after: Key, position: nat)
    requires Ordered(p, t) && position <= |Matching(t, prefix, [])|
    requires if after == [] then position == 0 else position > 0 && after == Matching(t, prefix, [])[position - 1]
    ensures Matching(t, prefix, after) == Matching(t, prefix, [])[position..]
  {
    hide Less, Ordered, Matching;
    if after != [] {
      var all := Matching(t, prefix, []);
      MatchingSorted(p, t, prefix, []);
      MatchingAfter(p, t, prefix, after);
      var read, left := all[..position], all[position..];
      assert all == read + left;
      KeepConcat(read, left, after);
      forall k | k in read ensures !Less(after, k) {
        var i :| 0 <= i < |read| && read[i] == k;
        if i < position - 1 { LessAsymmetric(all[i], all[position - 1]); } else { LessIrreflexive(after); }
      }
      KeepNone(read, after);
      forall k | k in left ensures Less(after, k) {
        var i :| 0 <= i < |left| && left[i] == k;
        assert k == all[position + i];
      }
      KeepAll(left, after);
    }
  }

  lemma KeysNonempty(p: Priority, t: Id, prefix: Key, k: Key)
    requires prefix != []
    ensures k in Matching(t, prefix, []) ==> k != []
  {
    MatchingElements(t, prefix, []);
  }

  /** Reading pages of any sizes until the end lists the pinned directory once each, in
      order: the pages read so far are always the listing's next stretch. */
  method ReadAll(cursor: Cursor, sizes: seq<nat>) returns (names: seq<Key>, eof: bool)
    requires cursor.Valid() && cursor.position == 0 && !cursor.done
    requires forall i :: 0 <= i < |sizes| ==> 1 <= sizes[i] <= 1024
    modifies cursor
    ensures cursor.Valid() && names == cursor.All()[..cursor.position]
    ensures eof ==> names == SortedKeys(WantedKeys(cursor.tree, cursor.prefix, []))
    ensures |sizes| > |cursor.All()| ==> eof
  {
    hide Ordered, Matching, WantedKeys, SortedKeys;
    names, eof := [], false;
    MatchingIs(cursor.p, cursor.tree, cursor.prefix, []);
    for i := 0 to |sizes|
      invariant cursor.Valid() && names == cursor.All()[..cursor.position] && eof == cursor.done
      invariant eof || cursor.position >= i
    {
      var page := cursor.Read(sizes[i]);
      names, eof := names + page.value.names, page.value.eof;
    }
  }
}
