/** Mark and sweep over the object store (daemon/container.cpp, collect_garbage). */
module Garbage {
  import opened Bytes
  import opened JournalCodec
  import opened LevelStore

  /** Names under the history prefix: "object/", "world/", "revision/", "base/". */
  const REGISTRY: Bytes := HISTORY + [111, 98, 106, 101, 99, 116, 47]
  const WORLDS: Bytes := HISTORY + [119, 111, 114, 108, 100, 47]
  const REVISIONS: Bytes := HISTORY + [114, 101, 118, 105, 115, 105, 111, 110, 47]
  const BASES: Bytes := HISTORY + [98, 97, 115, 101, 47]
  /** "FFREV001", "FFTREE01", "FFTRNO01" */
  const REVISION_MAGIC: Bytes := [70, 70, 82, 69, 86, 48, 48, 49]
  const TREE_MAGIC: Bytes := [70, 70, 84, 82, 69, 69, 48, 49]
  const NODE_MAGIC: Bytes := [70, 70, 84, 82, 78, 79, 48, 49]

  datatype Kind = Revision | Manifest | Node

  /** An object to be read as a given kind of record. */
  datatype Item = Item(id: Bytes, kind: Kind)

  // ---- Records and what they refer to ----

  predicate WellFormed(b: Bytes, kind: Kind) {
    match kind
    case Revision => |b| == 80 && b[..8] == REVISION_MAGIC
    case Manifest => |b| == 40 && b[..8] == TREE_MAGIC
    case Node => |b| >= 108 && b[..8] == NODE_MAGIC && Num(b[8..12]) == |b| - 108
  }

  function Unless0(id: Bytes, kind: Kind): seq<Item> {
    if id == NO_HASH then [] else [Item(id, kind)]
  }

  function Children(b: Bytes, kind: Kind): seq<Item>
    requires WellFormed(b, kind)
  {
    match kind
    case Revision => Unless0(b[8..40], Manifest) + Unless0(b[40..72], Revision)
    case Manifest => Unless0(b[8..40], Node)
    case Node => Unless0(b[44..76], Node) + Unless0(b[76..108], Node)
  }

  function ValueAt(b: Bytes): Bytes
    requires |b| >= 44
  {
    b[12..44]
  }

  predicate Well(objects: Objects, i: Item) {
    i.id in objects && WellFormed(objects[i.id], i.kind)
  }

  function ChildrenOf(objects: Objects, i: Item): seq<Item> {
    if Well(objects, i) then Children(objects[i.id], i.kind) else []
  }

  /** The object a tree node's entry refers to. */
  predicate Values(objects: Objects, i: Item, h: Bytes) {
    i.kind.Node? && Well(objects, i) && ValueAt(objects[i.id]) == h
  }

  // ---- Refs ----

  predicate Registry(k: Bytes) {
    StartsWith(k, REGISTRY)
  }

  /** Where tracing starts from one root. */
  function StartOf(objects: Objects, k: Bytes, id: Bytes): seq<Item>
    requires id in objects
  {
    if StartsWith(k, WORLDS) then Unless0(id, Manifest)
    else if StartsWith(k, REVISIONS) then Unless0(id, Revision)
    else if StartsWith(k, BASES) && |objects[id]| == 32 then Unless0(objects[id], Revision)
    else []
  }

  /** A root that retains what it refers to: any but the registry's. */
  predicate Retains(roots: Refs, k: Bytes) {
    k in roots && !Registry(k)
  }

  ghost predicate Starts(objects: Objects, roots: Refs, i: Item) {
    exists k :: Retains(roots, k) && roots[k] in objects && i in StartOf(objects, k, roots[k])
  }

  // ---- Reachability ----

  ghost predicate Path(objects: Objects, roots: Refs, p: seq<Item>) {
    p != [] && Starts(objects, roots, p[0]) && forall n :: 0 < n < |p| ==> p[n] in ChildrenOf(objects, p[n - 1])
  }

  ghost predicate Traced(objects: Objects, roots: Refs, i: Item) {
    exists p :: Path(objects, roots, p) && p[|p| - 1] == i
  }

  ghost predicate Reaches(objects: Objects, i: Item, h: Bytes) {
    i.id == h || Values(objects, i, h)
  }

  /** What a collection must keep: targets of retaining roots, every record traced from
      them, and the values those records hold. */
  ghost predicate Live(objects: Objects, roots: Refs, h: Bytes) {
    (exists k :: Retains(roots, k) && roots[k] == h) ||
    (exists i :: Traced(objects, roots, i) && Reaches(objects, i, h))
  }

  lemma TracedStart(objects: Objects, roots: Refs, i: Item)
    requires Starts(objects, roots, i)
    ensures Traced(objects, roots, i)
  {
    hide Starts;
    assert Path(objects, roots, [i]);
  }

  lemma TracedChild(objects: Objects, roots: Refs, i: Item, c: Item)
    requires Traced(objects, roots, i) && c in ChildrenOf(objects, i)
    ensures Traced(objects, roots, c)
  {
    hide Starts, ChildrenOf;
    var p :| Path(objects, roots, p) && p[|p| - 1] == i;
    var q := p + [c];
    forall n | 0 < n < |q| ensures q[n] in ChildrenOf(objects, q[n - 1]) { }
    assert Path(objects, roots, q);
  }

  // ---- Marking ----

  datatype Marks = Marks(pending: seq<Item>, expanded: set<Item>, live: set<Bytes>)

  /** Everything noted is reachable and stored. */
  ghost predicate SoundMarks(objects: Objects, roots: Refs, m: Marks) {
    (forall i :: i in m.pending ==> Traced(objects, roots, i)) &&
    (forall i :: i in m.expanded ==> Traced(objects, roots, i) && Well(objects, i)) &&
    (forall h :: h in m.live ==> h in objects && Live(objects, roots, h))
  }

  /** What an expanded record leads to is noted too. */
  ghost predicate ClosedMarks(objects: Objects, m: Marks) {
    (forall i, c :: i in m.expanded && c in ChildrenOf(objects, i) ==> c in m.expanded || c in m.pending) &&
    (forall i, h :: i in m.expanded && Reaches(objects, i, h) ==> h in m.live)
  }

  ghost predicate StartedMarks(objects: Objects, roots: Refs, m: Marks) {
    (forall i :: Starts(objects, roots, i) ==> i in m.expanded || i in m.pending) &&
    (forall k :: Retains(roots, k) ==> roots[k] in m.live)
  }

  ghost predicate MarksOk(objects: Objects, roots: Refs, m: Marks) {
    SoundMarks(objects, roots, m) && ClosedMarks(objects, m) && StartedMarks(objects, roots, m)
  }

  /** With nothing pending, every traced record has been expanded. */
  lemma {:induction false} TracedExpanded(objects: Objects, roots: Refs, m: Marks, p: seq<Item>)
    requires MarksOk(objects, roots, m) && m.pending == [] && Path(objects, roots, p)
    ensures p[|p| - 1] in m.expanded
  {
    hide Starts, ChildrenOf, Reaches, SoundMarks;
    if |p| > 1 {
      var q := p[..|p| - 1];
      assert Path(objects, roots, q);
      TracedExpanded(objects, roots, m, q);
      assert p[|p| - 1] in ChildrenOf(objects, p[|p| - 2]);
    }
  }

  /** A finished marking is exactly the live set. */
  lemma MarkedIsLive(objects: Objects, roots: Refs, m: Marks, h: Bytes)
    requires MarksOk(objects, roots, m) && m.pending == []
    ensures h in m.live <==> Live(objects, roots, h)
  {
    hide Starts, Reaches;
    if exists i :: Traced(objects, roots, i) && Reaches(objects, i, h) {
      var i :| Traced(objects, roots, i) && Reaches(objects, i, h);
      var p :| Path(objects, roots, p) && p[|p| - 1] == i;
      TracedExpanded(objects, roots, m, p);
    }
  }

  lemma PopKnown(objects: Objects, roots: Refs, m: Marks)
    requires MarksOk(objects, roots, m) && m.pending != [] && m.pending[|m.pending| - 1] in m.expanded
    ensures MarksOk(objects, roots, m.(pending := m.pending[..|m.pending| - 1]))
  {
    hide Starts, Reaches, Traced, Live, ChildrenOf;
    var n := |m.pending| - 1;
    assert m.pending == m.pending[..n] + [m.pending[n]];
  }

  /** Expanding the top record: it, its id, its value and its children are all noted. */
  function Expanded(objects: Objects, m: Marks): Marks
    requires m.pending != []
  {
    var n := |m.pending| - 1;
    var i := m.pending[n];
    Marks(m.pending[..n] + ChildrenOf(objects, i), m.expanded + {i},
          m.live + {i.id} + if i.kind.Node? && Well(objects, i) then {ValueAt(objects[i.id])} else {})
  }

  lemma ExpandSound(objects: Objects, roots: Refs, m: Marks)
    requires SoundMarks(objects, roots, m) && m.pending != [] && Well(objects, m.pending[|m.pending| - 1])
    requires var i := m.pending[|m.pending| - 1]; i.kind.Node? ==> ValueAt(objects[i.id]) in objects
    ensures SoundMarks(objects, roots, Expanded(objects, m))
  {
    hide Traced, ChildrenOf, Live;
    var n := |m.pending| - 1;
    var i, m' := m.pending[n], Expanded(objects, m);
    assert i in m.pending;
    forall c | c in ChildrenOf(objects, i) ensures Traced(objects, roots, c) { TracedChild(objects, roots, i, c); }
    forall h | h in m'.live && h !in m.live ensures Live(objects, roots, h) {
      assert Reaches(objects, i, h);
      LiveBy(objects, roots, i, h);
    }
  }

  lemma LiveBy(objects: Objects, roots: Refs, i: Item, h: Bytes)
    requires Traced(objects, roots, i) && Reaches(objects, i, h)
    ensures Live(objects, roots, h)
  {
    hide Traced, Reaches;
  }

  lemma ExpandClosed(objects: Objects, roots: Refs, m: Marks)
    requires ClosedMarks(objects, m) && StartedMarks(objects, roots, m) && m.pending != []
    ensures ClosedMarks(objects, Expanded(objects, m)) && StartedMarks(objects, roots, Expanded(objects, m))
  {
    hide Starts, ChildrenOf;
    var n := |m.pending| - 1;
    var i, m' := m.pending[n], Expanded(objects, m);
    assert m.pending == m.pending[..n] + [i];
    forall j | j in m.pending ensures j in m'.pending || j in m'.expanded { }
  }

  // ---- The roots ----

  /** A retaining root that says it is a base but does not hold one reference. */
  predicate BadBase(objects: Objects, roots: Refs, k: Bytes) {
    Retains(roots, k) && roots[k] in objects && !StartsWith(k, WORLDS) && !StartsWith(k, REVISIONS) &&
    StartsWith(k, BASES) && |objects[roots[k]]| != 32
  }

  /** The marks after the roots in a list of keys. */
  ghost predicate RootMarks(objects: Objects, roots: Refs, keys: seq<Bytes>, m: Marks) {
    m.expanded == {} &&
    (forall i :: i in m.pending ==> Starts(objects, roots, i)) &&
    (forall h :: h in m.live ==> h in objects && exists k :: Retains(roots, k) && roots[k] == h) &&
    (forall k, i :: k in keys && Retains(roots, k) && roots[k] in objects && i in StartOf(objects, k, roots[k]) ==>
      i in m.pending) &&
    (forall k :: k in keys && Retains(roots, k) ==> roots[k] in m.live)
  }

  lemma RootMarksOk(objects: Objects, roots: Refs, keys: seq<Bytes>, m: Marks)
    requires RootMarks(objects, roots, keys, m) && forall k :: k in roots ==> k in keys
    ensures MarksOk(objects, roots, m) && m.expanded == {}
  {
    hide StartOf, Traced, ChildrenOf, Reaches;
    forall i | i in m.pending ensures Traced(objects, roots, i) { TracedStart(objects, roots, i); }
  }

  lemma RootMarksStep(objects: Objects, roots: Refs, keys: seq<Bytes>, k: Bytes, m: Marks)
    requires RootMarks(objects, roots, keys, m) && k in roots && roots[k] in objects
    ensures Registry(k) ==> RootMarks(objects, roots, keys + [k], m)
    ensures !Registry(k) ==>
      RootMarks(objects, roots, keys + [k],
                m.(live := m.live + {roots[k]}, pending := m.pending + StartOf(objects, k, roots[k])))
  {
    hide StartOf;
  }

  method MarkRoots(objects: Objects, roots: Refs) returns (marks: Option<Marks>, registry: seq<Bytes>)
    requires Anchored(objects, roots)
    ensures marks.Some? <==> forall k :: !BadBase(objects, roots, k)
    ensures marks.Some? ==>
      MarksOk(objects, roots, marks.value) && marks.value.expanded == {} && NoRepeats(registry) &&
      (forall k :: k in registry <==> k in roots && Registry(k))
  {
    hide StartOf, RootMarks, SortedKeys, Less, MarksOk, StartsWith, Registry;
    var keys := ListKeys(roots.Keys);
    var m := Marks([], {}, {});
    registry := [];
    assert RootMarks(objects, roots, keys[..0], m) by { NoRootsYet(objects, roots, keys); }
    for i := 0 to |keys|
      invariant RootMarks(objects, roots, keys[..i], m)
      invariant (forall k :: k in registry <==> k in keys[..i] && Registry(k)) && Sorted(registry)
      invariant forall k :: k in keys[..i] ==> !BadBase(objects, roots, k)
    {
      var k := keys[i];
      var id := roots[k];
      assert keys[..i + 1] == keys[..i] + [k];
      RootMarksStep(objects, roots, keys[..i], k, m);
      if Registry(k) {
        SortedSnoc(registry, keys, i);
        registry := registry + [k];
      } else {
        if !StartsWith(k, WORLDS) && !StartsWith(k, REVISIONS) && StartsWith(k, BASES) && |objects[id]| != 32 {
          assert BadBase(objects, roots, k);
          return None, [];
        }
        m := m.(live := m.live + {id}, pending := m.pending + StartOf(objects, k, id));
      }
    }
    assert keys[..|keys|] == keys;
    forall k ensures !BadBase(objects, roots, k) { assert k in roots ==> k in keys; }
    RootMarksOk(objects, roots, keys, m);
    SortedNoRepeats(registry);
    return Some(m), registry;
  }

  lemma NoRootsYet(objects: Objects, roots: Refs, keys: seq<Bytes>)
    ensures RootMarks(objects, roots, keys[..0], Marks([], {}, {}))
  {
  }

  lemma SortedSnoc(a: seq<Bytes>, keys: seq<Bytes>, i: nat)
    requires Sorted(keys) && Sorted(a) && i < |keys| && forall k :: k in a ==> k in keys[..i]
    ensures Sorted(a + [keys[i]])
  {
    hide Less;
    forall x, y | 0 <= x < y < |a + [keys[i]]| ensures Less((a + [keys[i]])[x], (a + [keys[i]])[y]) {
      if y == |a| {
        assert a[x] in keys[..i];
        var j :| 0 <= j < i && keys[j] == a[x];
      }
    }
  }

  lemma SortedNoRepeats(s: seq<Bytes>)
    requires Sorted(s)
    ensures NoRepeats(s)
  {
    hide Less;
    forall i, j | 0 <= i < j < |s| ensures s[i] != s[j] { LessIrreflexive(s[i]); }
  }

  // ---- The worklist ----

  function Universe(objects: Objects): set<Item> {
    (set h | h in objects :: Item(h, Revision)) + (set h | h in objects :: Item(h, Manifest)) +
      (set h | h in objects :: Item(h, Node))
  }

  lemma InUniverse(objects: Objects, i: Item)
    requires Well(objects, i)
    ensures i in Universe(objects)
  {
  }

  /** A traced record that is missing or unreadable, or whose value is missing. */
  ghost predicate Broken(objects: Objects, roots: Refs, i: Item) {
    Traced(objects, roots, i) && (!Well(objects, i) || (i.kind.Node? && ValueAt(objects[i.id]) !in objects))
  }

  ghost predicate Damaged(objects: Objects, roots: Refs) {
    (exists k :: BadBase(objects, roots, k)) || (exists i :: Broken(objects, roots, i))
  }

  /** A finished marking has read every traced record, so none is broken. */
  lemma MarkedSound(objects: Objects, roots: Refs, m: Marks, i: Item)
    requires MarksOk(objects, roots, m) && m.pending == []
    ensures !Broken(objects, roots, i)
  {
    hide Starts, ChildrenOf, Live, WellFormed, StartedMarks;
    if Traced(objects, roots, i) {
      var p :| Path(objects, roots, p) && p[|p| - 1] == i;
      TracedExpanded(objects, roots, m, p);
      if i.kind.Node? { NodeLong(objects, i); assert Reaches(objects, i, ValueAt(objects[i.id])); }
    }
  }

  predicate Expandable(objects: Objects, i: Item) {
    Well(objects, i) && (i.kind.Node? ==> ValueAt(objects[i.id]) in objects)
  }

  lemma TopTraced(objects: Objects, roots: Refs, m: Marks)
    requires MarksOk(objects, roots, m) && m.pending != []
    ensures var i := m.pending[|m.pending| - 1]; Broken(objects, roots, i) <==> !Expandable(objects, i)
  {
    hide Traced, ChildrenOf, Live, Starts, ClosedMarks, StartedMarks, WellFormed;
    var i := m.pending[|m.pending| - 1];
    assert i in m.pending;
    if Well(objects, i) { NodeLong(objects, i); }
  }

  lemma ExpandKeeps(objects: Objects, roots: Refs, m: Marks, universe: set<Item>)
    requires MarksOk(objects, roots, m) && m.pending != [] && m.expanded <= universe == Universe(objects)
    requires var i := m.pending[|m.pending| - 1]; Expandable(objects, i) && i !in m.expanded
    ensures var m' := Expanded(objects, m);
      MarksOk(objects, roots, m') && m'.expanded <= universe && |universe - m'.expanded| < |universe - m.expanded|
  {
    hide SoundMarks, ClosedMarks, StartedMarks, Universe, ChildrenOf, WellFormed;
    var i := m.pending[|m.pending| - 1];
    InUniverse(objects, i);
    ExpandSound(objects, roots, m);
    ExpandClosed(objects, roots, m);
    Shrinks(universe, m.expanded, i);
  }

  lemma MarksLive(objects: Objects, roots: Refs, m: Marks)
    requires MarksOk(objects, roots, m) && m.pending == []
    ensures (forall h :: h in m.live <==> Live(objects, roots, h)) && m.live <= objects.Keys
    ensures forall i :: !Broken(objects, roots, i)
  {
    hide Live, Broken, Traced, ClosedMarks, StartedMarks;
    forall h ensures h in m.live <==> Live(objects, roots, h) { MarkedIsLive(objects, roots, m, h); }
    forall i ensures !Broken(objects, roots, i) { MarkedSound(objects, roots, m, i); }
  }

  /** The worklist loop: terminates, and marks exactly the live objects unless a reachable
      record is broken. */
  method Trace(objects: Objects, roots: Refs, start: Marks) returns (live: Option<set<Bytes>>)
    requires MarksOk(objects, roots, start) && start.expanded == {}
    ensures live.Some? <==> forall i :: !Broken(objects, roots, i)
    ensures live.Some? ==> (forall h :: h in live.value <==> Live(objects, roots, h)) && live.value <= objects.Keys
  {
    hide Live, MarksOk, Broken, Universe, Expandable, Expanded;
    var m := start;
    ghost var universe := Universe(objects);
    while m.pending != []
      invariant MarksOk(objects, roots, m) && m.expanded <= universe
      decreases |universe - m.expanded|, |m.pending|
    {
      var n := |m.pending| - 1;
      var i := m.pending[n];
      if i in m.expanded {
        PopKnown(objects, roots, m);
        m := m.(pending := m.pending[..n]);
      } else {
        TopTraced(objects, roots, m);
        if !Expandable(objects, i) { return None; }
        ExpandKeeps(objects, roots, m, universe);
        m := Expanded(objects, m);
      }
    }
    MarksLive(objects, roots, m);
    return Some(m.live);
  }

  /** Marks from the roots, unless a base or a reachable record is damaged. */
  method Mark(objects: Objects, roots: Refs) returns (live: Option<set<Bytes>>, registry: seq<Bytes>)
    requires Anchored(objects, roots)
    ensures live.Some? <==> !Damaged(objects, roots)
    ensures live.Some? ==> (forall h :: h in live.value <==> Live(objects, roots, h)) && live.value <= objects.Keys
    ensures live.Some? ==> NoRepeats(registry) && (forall k :: k in registry <==> k in roots && Registry(k))
  {
    hide Live, MarksOk, Broken, BadBase, Anchored, NoRepeats, Registry;
    var marks;
    marks, registry := MarkRoots(objects, roots);
    if marks.None? { return None, []; }
    live := Trace(objects, roots, marks.value);
  }

  lemma NodeLong(objects: Objects, i: Item)
    requires Well(objects, i)
    ensures i.kind.Node? ==> |objects[i.id]| >= 108
  {
  }

  lemma Shrinks(universe: set<Item>, expanded: set<Item>, i: Item)
    requires i in universe && i !in expanded
    ensures |universe - (expanded + {i})| < |universe - expanded|
  {
    assert universe - expanded == (universe - (expanded + {i})) + {i};
  }

  // ---- Collection ----

  /** Registry names of objects that are gone. */
  function Obsolete(roots: Refs, registry: seq<Bytes>, live: set<Bytes>): (keys: seq<Bytes>)
    requires forall k :: k in registry ==> k in roots
    ensures forall k :: k in keys <==> k in registry && roots[k] !in live
    ensures NoRepeats(registry) ==> NoRepeats(keys)
  {
    if registry == [] then []
    else
      assert forall k :: k in registry[1..] ==> k in registry;
      var rest := Obsolete(roots, registry[1..], live);
      if roots[registry[0]] in live then rest else [registry[0]] + rest
  }

  ghost predicate SameLive(before: State, after: State) {
    (forall h :: h in after.objects <==> Live(before.objects, before.roots, h)) &&
    (forall h :: h in after.objects ==> h in before.objects && after.objects[h] == before.objects[h])
  }

  ghost predicate SameRoots(before: State, after: State) {
    (forall k :: k in after.roots <==>
      k in before.roots && (Registry(k) ==> Live(before.objects, before.roots, before.roots[k]))) &&
    (forall k :: k in after.roots ==> after.roots[k] == before.roots[k])
  }

  /** Collects an idle repository: exactly the live objects stay, with their content;
      exactly the registry names of dead objects go; the counters stay exact. It fails
      exactly on damage or when the store cannot commit, leaving everything in place. */
  method CollectGarbage(store: Store, idle: bool, durable: bool) returns (removed: Option<nat>)
    requires store.Valid()
    modifies store
    ensures store.Valid()
    ensures removed.Some? ==> SameLive(old(store.state), store.state) && SameRoots(old(store.state), store.state)
    ensures removed.Some? ==>
      removed.value == |old(store.state.objects)| - |store.state.objects| &&
      store.state.sequence == old(store.state.sequence) + 1
    ensures removed.None? ==> store.state == old(store.state)
    ensures removed.Some? <==>
      idle && durable && !old(store.poisoned) && old(store.state.sequence) < U64 - 1 &&
      !Damaged(old(store.state.objects), old(store.state.roots))
  {
    hide Live, Registry, Damaged, Hashed, Anchored, SameLive, SameRoots, Spared, NoRepeats, Elements, Swept;
    if !idle { return None; }
    var s := store.state;
    var live, registry := Mark(s.objects, s.roots);
    if live.None? { return None; }
    var obsolete := Obsolete(s.roots, registry, live.value);
    SparedByMark(s, live.value, registry);
    FewObsolete(s, obsolete);
    removed := store.Collect(s.sequence, live.value, obsolete, durable);
    if removed.Some? { CollectedSame(s, live.value, registry, store.state); }
  }

  lemma FewObsolete(s: State, obsolete: seq<Bytes>)
    requires NoRepeats(obsolete) && Elements(obsolete) <= s.roots.Keys && s.rootCount == |s.roots|
    ensures |obsolete| <= s.rootCount
  {
    hide NoRepeats;
    DropRoots(s.roots, obsolete);
  }

  ghost predicate MarkedAll(s: State, live: set<Bytes>, registry: seq<Bytes>) {
    (forall h :: h in live <==> Live(s.objects, s.roots, h)) && live <= s.objects.Keys &&
    (forall k :: k in registry <==> k in s.roots && Registry(k))
  }

  lemma CollectedSame(s: State, live: set<Bytes>, registry: seq<Bytes>, s': State)
    requires MarkedAll(s, live, registry) && Swept(s, live, Obsolete(s.roots, registry, live), s')
    ensures SameLive(s, s') && SameRoots(s, s') && s'.sequence == s.sequence + 1
  {
    hide Live, Registry, Obsolete, SameRoots, SameLive;
    RootsSame(s, live, registry, s');
    LiveSame(s, live, registry, s');
  }

  lemma RootsSame(s: State, live: set<Bytes>, registry: seq<Bytes>, s': State)
    requires MarkedAll(s, live, registry) && s'.roots == s.roots - Elements(Obsolete(s.roots, registry, live))
    ensures SameRoots(s, s')
  {
    hide Live, Registry, Obsolete;
    var gone := Obsolete(s.roots, registry, live);
    forall k | k in s.roots ensures k in gone <==> Registry(k) && !Live(s.objects, s.roots, s.roots[k]) { }
  }

  lemma LiveSame(s: State, live: set<Bytes>, registry: seq<Bytes>, s': State)
    requires MarkedAll(s, live, registry) && s'.objects == Kept(s.objects, live)
    ensures SameLive(s, s')
  {
    hide Live, Registry;
  }

  lemma SparedByMark(s: State, live: set<Bytes>, registry: seq<Bytes>)
    requires MarkedAll(s, live, registry)
    ensures Spared(s.roots, Obsolete(s.roots, registry, live), live)
    ensures Elements(Obsolete(s.roots, registry, live)) <= s.roots.Keys
  {
    hide Obsolete, Registry;
    forall k | k in s.roots && k !in registry ensures s.roots[k] in live { RetainedLive(s.objects, s.roots, k); }
  }

  lemma RetainedLive(objects: Objects, roots: Refs, k: Bytes)
    requires k in roots && !Registry(k)
    ensures Live(objects, roots, roots[k])
  {
    hide Registry, Traced;
    assert Retains(roots, k);
  }
}
