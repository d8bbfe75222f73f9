/** What stored manifests and revisions mean, and that collection and commits keep it
    (daemon/metadata_tree.cpp, daemon/container.cpp, daemon/level_store.cpp). */
module Retention {
  import opened Bytes
  import opened JournalCodec
  import opened Treap
  import T = MetadataTree
  import L = LevelStore
  import G = Garbage

  /** Payloads by namespace key: what a World or a revision reads as. */
  type Contents = map<Bytes, Bytes>

  // ---- Records ----

  /** The stored form of a tree node, given the identities of its children. */
  function NodeBytes(key: Bytes, value: Hash, left: Hash, right: Hash): Bytes {
    G.NODE_MAGIC + Le(|key|, 4) + value + left + right + key
  }

  function ManifestBytes(root: Hash): Bytes {
    G.TREE_MAGIC + root
  }

  function RevisionBytes(manifest: Hash, parent: Hash, sequence: nat): Bytes {
    G.REVISION_MAGIC + manifest + parent + Le(sequence, 8)
  }

  /** The identity a tree is stored under. */
  function HashOf(sha: Bytes -> Hash, t: Id): Hash {
    if t.Zero? then NO_HASH else sha(NodeBytes(t.key, t.value, HashOf(sha, t.left), HashOf(sha, t.right)))
  }

  function Payload(sha: Bytes -> Hash, t: Id): Bytes
    requires t.Node?
  {
    NodeBytes(t.key, t.value, HashOf(sha, t.left), HashOf(sha, t.right))
  }

  lemma NodeFields(key: Bytes, value: Hash, left: Hash, right: Hash)
    requires |key| < U32
    ensures var b := NodeBytes(key, value, left, right);
      G.WellFormed(b, G.Node) && G.ValueAt(b) == value && b[44..76] == left && b[76..108] == right && b[108..] == key
  {
    hide Le, Num;
    FitsU32(|key|);
    var b := NodeBytes(key, value, left, right);
    assert b[..8] == G.NODE_MAGIC && b[8..12] == Le(|key|, 4);
    assert b[12..44] == value && b[44..76] == left && b[76..108] == right;
  }

  lemma NodeRebuilt(b: Bytes)
    requires G.WellFormed(b, G.Node)
    ensures b == NodeBytes(b[108..], b[12..44], b[44..76], b[76..108])
  {
    hide Le, Num;
    LeNum(b[8..12]);
    assert b == b[..8] + b[8..12] + b[12..44] + b[44..76] + b[76..108] + b[108..];
  }

  lemma ManifestFields(root: Hash)
    ensures G.WellFormed(ManifestBytes(root), G.Manifest) && ManifestBytes(root)[8..40] == root
  {
  }

  lemma RevisionFields(manifest: Hash, parent: Hash, sequence: nat)
    ensures var b := RevisionBytes(manifest, parent, sequence);
      G.WellFormed(b, G.Revision) && b[8..40] == manifest && b[40..72] == parent
  {
    hide Le;
  }

  // ---- Stored trees ----

  /** The object is the tree's node, its value is stored, and its children are too. */
  ghost predicate Represents(objects: L.Objects, id: Bytes, t: Id)
    decreases t
  {
    if t.Zero? then id == NO_HASH
    else
      id != NO_HASH && G.Well(objects, G.Item(id, G.Node)) &&
      objects[id][108..] == t.key && G.ValueAt(objects[id]) == t.value && t.value in objects &&
      Represents(objects, objects[id][44..76], t.left) && Represents(objects, objects[id][76..108], t.right)
  }

  function Nodes(t: Id): set<Id> {
    if t.Zero? then {} else {t} + Nodes(t.left) + Nodes(t.right)
  }

  ghost predicate StoredNode(sha: Bytes -> Hash, objects: L.Objects, n: Id) {
    n.Node? && HashOf(sha, n) != NO_HASH && HashOf(sha, n) in objects && objects[HashOf(sha, n)] == Payload(sha, n)
  }

  /** The bytes decide the tree. */
  lemma {:induction false} RepresentsUnique(objects: L.Objects, id: Bytes, t: Id, u: Id)
    requires Represents(objects, id, t) && Represents(objects, id, u)
    ensures t == u
    decreases t
  {
    hide Num;
    if t.Node? {
      RepresentsUnique(objects, objects[id][44..76], t.left, u.left);
      RepresentsUnique(objects, objects[id][76..108], t.right, u.right);
    }
  }

  /** In a store whose payloads match their hashes, a tree is stored under its own identity
      and so is each of its nodes. */
  lemma {:induction false} RepresentsHash(sha: Bytes -> Hash, objects: L.Objects, id: Bytes, t: Id)
    requires L.Hashed(sha, objects) && Represents(objects, id, t)
    ensures id == HashOf(sha, t) && forall n :: n in Nodes(t) ==> StoredNode(sha, objects, n)
    decreases t
  {
    hide L.Hashed, NodeBytes;
    if t.Node? {
      RepresentsHash(sha, objects, objects[id][44..76], t.left);
      RepresentsHash(sha, objects, objects[id][76..108], t.right);
      NodeRebuilt(objects[id]);
      StoredUnder(sha, objects, id);
    }
  }

  lemma StoredUnder(sha: Bytes -> Hash, objects: L.Objects, id: Bytes)
    requires L.Hashed(sha, objects) && id in objects
    ensures sha(objects[id]) == id
  {
  }

  lemma {:induction false} StoredRepresents(sha: Bytes -> Hash, objects: L.Objects, t: Id)
    requires forall n :: n in Nodes(t) ==> StoredNode(sha, objects, n) && n.value in objects && |n.key| < U32
    ensures Represents(objects, HashOf(sha, t), t)
  {
    hide G.WellFormed, NodeBytes;
    if t.Node? {
      StoredRepresents(sha, objects, t.left);
      StoredRepresents(sha, objects, t.right);
      assert t in Nodes(t) && StoredNode(sha, objects, t);
      NodeFields(t.key, t.value, HashOf(sha, t.left), HashOf(sha, t.right));
    }
  }

  lemma {:induction false} NodesValues(p: Priority, t: Id, n: Id)
    requires Ordered(p, t) && n in Nodes(t)
    ensures n.Node? && n.key in Map(t) && Map(t)[n.key] == n.value
  {
    hide Less, Higher, Below, Above, Under;
    SplitMap(p, t);
    if n in Nodes(t.left) { NodesValues(p, t.left, n); }
    if n in Nodes(t.right) { NodesValues(p, t.right, n); }
  }

  lemma {:induction false} PresentNodes(nodes: set<Id>, t: Id)
    ensures T.Present(nodes, t) ==> Nodes(t) <= nodes
    ensures T.Present(Nodes(t) + nodes, t)
    decreases t
  {
    if t.Node? {
      PresentNodes(nodes, t.left);
      PresentNodes(nodes, t.right);
      PresentNodes({t} + Nodes(t.right) + nodes, t.left);
      PresentNodes({t} + Nodes(t.left) + nodes, t.right);
      assert Nodes(t.left) + ({t} + Nodes(t.right) + nodes) == Nodes(t) + nodes;
      assert Nodes(t.right) + ({t} + Nodes(t.left) + nodes) == Nodes(t) + nodes;
    }
  }

  // ---- What a manifest and a revision mean ----

  /** A manifest object holding a tree. */
  ghost predicate Manifest(objects: L.Objects, id: Bytes, t: Id) {
    G.Well(objects, G.Item(id, G.Manifest)) && Represents(objects, objects[id][8..40], t)
  }

  /** The references read as these payloads. */
  ghost predicate Holds(objects: L.Objects, refs: Refs, c: Contents) {
    refs.Keys == c.Keys && forall k :: k in c ==> refs[k] != NO_HASH && refs[k] in objects && objects[refs[k]] == c[k]
  }

  ghost predicate KeysOk(c: Contents) {
    ROOT in c && forall k :: k in c ==> T.ValidKey(k)
  }

  /** A treap, no deeper than lookups allow, whose entries read as these payloads. */
  ghost predicate TreeMeans(p: Priority, objects: L.Objects, id: Bytes, t: Id, c: Contents) {
    Manifest(objects, id, t) && Ordered(p, t) && T.Height(t) <= T.MAX_DEPTH && Holds(objects, Map(t), c)
  }

  ghost predicate Means(p: Priority, objects: L.Objects, id: Bytes, c: Contents) {
    id != NO_HASH && KeysOk(c) && exists t :: TreeMeans(p, objects, id, t, c)
  }

  /** A revision object that means the first contents, with the contents of its ancestors. */
  ghost predicate Lineage(p: Priority, objects: L.Objects, id: Bytes, cs: seq<Contents>)
    decreases |cs|
  {
    if cs == [] then id == NO_HASH
    else
      id != NO_HASH && G.Well(objects, G.Item(id, G.Revision)) &&
      Means(p, objects, objects[id][8..40], cs[0]) && Lineage(p, objects, objects[id][40..72], cs[1..])
  }

  // ---- Reading ----

  datatype Answer = Found(payload: Bytes) | Missing | Refused

  predicate NodeReadable(objects: L.Objects, id: Bytes) {
    G.Well(objects, G.Item(id, G.Node)) && T.ValidKey(objects[id][108..]) && G.ValueAt(objects[id]) != NO_HASH
  }

  /** Looks a key up by the stored bytes alone, as a view does. A manifest that means some
      contents answers with them, never running out of depth or finding a bad node. */
  method ReadKey(objects: L.Objects, manifest: Bytes, key: Bytes, ghost p: Priority, ghost c: Contents)
    returns (answer: Answer)
    ensures Means(p, objects, manifest, c) ==> answer == if key in c then Found(c[key]) else Missing
  {
    hide Means, Represents, Ordered, Map, T.Height, T.SameTarget, NodeReadable, Less, G.WellFormed, Holds;
    ghost var t, u := Zero, Zero;
    if !G.Well(objects, G.Item(manifest, G.Manifest)) { NotMeant(p, objects, manifest, c); return Refused; }
    ManifestLong(objects, manifest);
    var id := objects[manifest][8..40];
    ghost var good := Means(p, objects, manifest, c);
    if good {
      t := StartRead(p, objects, manifest, key, c);
      u := t;
    }
    var depth := 0;
    while id != NO_HASH
      invariant good ==> Reading(p, objects, t, u, id, key, c, depth)
      decreases T.MAX_DEPTH - depth
    {
      if good { ReadHere(p, objects, t, u, id, key, c, depth); }
      if depth >= T.MAX_DEPTH || !NodeReadable(objects, id) { return Refused; }
      NodeLong(objects, id);
      var node := objects[id];
      if key == node[108..] {
        return if G.ValueAt(node) in objects then Found(objects[G.ValueAt(node)]) else Refused;
      }
      if good {
        ReadBelow(p, objects, t, u, id, key, c, depth);
        u := if Less(key, node[108..]) then u.left else u.right;
      }
      depth, id := depth + 1, if Less(key, node[108..]) then node[44..76] else node[76..108];
    }
    if good { ReadNothing(p, objects, t, u, id, key, c, depth); }
    return Missing;
  }

  /** The search for the key goes on in the subtree stored here. */
  ghost predicate Reading(p: Priority, objects: L.Objects, t: Id, u: Id, id: Bytes, key: Bytes, c: Contents,
                          depth: nat) {
    Represents(objects, id, u) && T.SameTarget(p, t, u, key) && Holds(objects, Map(t), c) && KeysOk(c) &&
    T.Height(t) <= T.MAX_DEPTH && depth + T.Height(u) <= T.MAX_DEPTH && Nodes(u) <= Nodes(t) && Ordered(p, t)
  }

  lemma NotMeant(p: Priority, objects: L.Objects, manifest: Bytes, c: Contents)
    requires !G.Well(objects, G.Item(manifest, G.Manifest))
    ensures !Means(p, objects, manifest, c)
  {
    hide G.Well, Represents, Ordered, Map, T.Height, Holds, KeysOk;
  }

  lemma ManifestLong(objects: L.Objects, manifest: Bytes)
    requires G.Well(objects, G.Item(manifest, G.Manifest))
    ensures |objects[manifest]| == 40
  {
  }

  lemma NodeLong(objects: L.Objects, id: Bytes)
    requires NodeReadable(objects, id)
    ensures id in objects && |objects[id]| >= 108
  {
    hide Num;
  }

  lemma StartRead(p: Priority, objects: L.Objects, manifest: Bytes, key: Bytes, c: Contents) returns (t: Id)
    requires Means(p, objects, manifest, c)
    ensures manifest in objects && |objects[manifest]| == 40
    ensures Reading(p, objects, t, t, objects[manifest][8..40], key, c, 0)
  {
    hide Represents, Ordered, Map, T.Height, Holds, KeysOk;
    t :| TreeMeans(p, objects, manifest, t, c);
  }

  lemma ReadHere(p: Priority, objects: L.Objects, t: Id, u: Id, id: Bytes, key: Bytes, c: Contents, depth: nat)
    requires Reading(p, objects, t, u, id, key, c, depth) && id != NO_HASH
    ensures u.Node? && depth < T.MAX_DEPTH && NodeReadable(objects, id) && objects[id][108..] == u.key
    ensures key == u.key ==> key in c && G.ValueAt(objects[id]) in objects && objects[G.ValueAt(objects[id])] == c[key]
  {
    hide Num, Ordered, Map, Less, StartsWith;
    NodesValues(p, t, u);
    if key == u.key { T.TargetFound(p, t, u, key); }
  }

  lemma ReadBelow(p: Priority, objects: L.Objects, t: Id, u: Id, id: Bytes, key: Bytes, c: Contents, depth: nat)
    requires Reading(p, objects, t, u, id, key, c, depth) && u.Node? && key != u.key && id in objects
    requires |objects[id]| >= 108
    ensures var left := Less(key, u.key);
      var child := if left then objects[id][44..76] else objects[id][76..108];
      Reading(p, objects, t, if left then u.left else u.right, child, key, c, depth + 1)
  {
    hide Num, Ordered, Map, Less, StartsWith, Holds, KeysOk, T.SameTarget;
    T.TargetBelow(p, t, u, key);
  }

  lemma ReadNothing(p: Priority, objects: L.Objects, t: Id, u: Id, id: Bytes, key: Bytes, c: Contents, depth: nat)
    requires Reading(p, objects, t, u, id, key, c, depth) && id == NO_HASH
    ensures key !in c
  {
    hide Num, Ordered, Map, Less, StartsWith, KeysOk;
    T.TargetFound(p, t, u, key);
  }

  // ---- More objects ----

  ghost predicate Extends(a: L.Objects, b: L.Objects) {
    forall h :: h in a ==> h in b && b[h] == a[h]
  }

  lemma {:induction false} RepresentsMore(a: L.Objects, b: L.Objects, id: Bytes, t: Id)
    requires Extends(a, b) && Represents(a, id, t)
    ensures Represents(b, id, t)
    decreases t
  {
    hide Num;
    if t.Node? {
      RepresentsMore(a, b, a[id][44..76], t.left);
      RepresentsMore(a, b, a[id][76..108], t.right);
    }
  }

  lemma MeansMore(p: Priority, a: L.Objects, b: L.Objects, id: Bytes, c: Contents)
    requires Extends(a, b) && Means(p, a, id, c)
    ensures Means(p, b, id, c)
  {
    hide Represents, Ordered, Map, T.Height, KeysOk;
    var t :| TreeMeans(p, a, id, t, c);
    RepresentsMore(a, b, a[id][8..40], t);
    assert TreeMeans(p, b, id, t, c);
  }

  lemma {:induction false} LineageMore(p: Priority, a: L.Objects, b: L.Objects, id: Bytes, cs: seq<Contents>)
    requires Extends(a, b) && Lineage(p, a, id, cs)
    ensures Lineage(p, b, id, cs)
    decreases |cs|
  {
    hide Means;
    if cs != [] {
      MeansMore(p, a, b, a[id][8..40], cs[0]);
      LineageMore(p, a, b, a[id][40..72], cs[1..]);
    }
  }

  // ---- A collection ----

  ghost predicate Known(s: L.State, id: Bytes, kind: G.Kind) {
    id == NO_HASH || G.Traced(s.objects, s.roots, G.Item(id, kind))
  }

  lemma KnownChild(s: L.State, i: G.Item, id: Bytes, kind: G.Kind)
    requires G.Traced(s.objects, s.roots, i)
    requires id != NO_HASH ==> G.Item(id, kind) in G.ChildrenOf(s.objects, i)
    ensures Known(s, id, kind)
  {
    hide G.Traced, G.ChildrenOf;
    if id != NO_HASH { G.TracedChild(s.objects, s.roots, i, G.Item(id, kind)); }
  }

  lemma KeptRecord(s: L.State, s': L.State, i: G.Item)
    requires G.SameLive(s, s') && G.Traced(s.objects, s.roots, i) && i.id in s.objects
    ensures i.id in s'.objects && s'.objects[i.id] == s.objects[i.id]
    ensures forall h :: G.Values(s.objects, i, h) ==> h in s'.objects
  {
    hide G.Traced, G.Live, G.Values;
    assert G.Reaches(s.objects, i, i.id);
    G.LiveBy(s.objects, s.roots, i, i.id);
    forall h | G.Values(s.objects, i, h) ensures h in s'.objects {
      assert G.Reaches(s.objects, i, h);
      G.LiveBy(s.objects, s.roots, i, h);
    }
  }

  lemma NodeChildren(objects: L.Objects, id: Bytes)
    requires G.Well(objects, G.Item(id, G.Node))
    ensures |objects[id]| >= 108
    ensures var b := objects[id];
      (b[44..76] != NO_HASH ==> G.Item(b[44..76], G.Node) in G.ChildrenOf(objects, G.Item(id, G.Node))) &&
      (b[76..108] != NO_HASH ==> G.Item(b[76..108], G.Node) in G.ChildrenOf(objects, G.Item(id, G.Node)))
  {
    hide Num;
  }

  /** A traced tree is still all there after a collection. */
  lemma {:induction false} RepresentsKept(s: L.State, s': L.State, id: Bytes, t: Id)
    requires G.SameLive(s, s') && Known(s, id, G.Node) && Represents(s.objects, id, t)
    ensures Represents(s'.objects, id, t)
    decreases t
  {
    hide G.SameLive, G.Traced, G.ChildrenOf, Num;
    if t.Node? {
      var i := G.Item(id, G.Node);
      KeptRecord(s, s', i);
      assert G.Values(s.objects, i, t.value);
      NodeChildren(s.objects, id);
      KnownChild(s, i, s.objects[id][44..76], G.Node);
      KnownChild(s, i, s.objects[id][76..108], G.Node);
      RepresentsKept(s, s', s.objects[id][44..76], t.left);
      RepresentsKept(s, s', s.objects[id][76..108], t.right);
    }
  }

  lemma {:induction false} RepresentsValues(objects: L.Objects, id: Bytes, t: Id)
    requires Represents(objects, id, t)
    ensures forall k :: k in Map(t) ==> Map(t)[k] in objects
    decreases t
  {
    hide Num;
    if t.Node? {
      RepresentsValues(objects, objects[id][44..76], t.left);
      RepresentsValues(objects, objects[id][76..108], t.right);
    }
  }

  lemma ManifestKept(s: L.State, s': L.State, id: Bytes, t: Id)
    requires G.SameLive(s, s') && id != NO_HASH && Known(s, id, G.Manifest) && Manifest(s.objects, id, t)
    ensures Manifest(s'.objects, id, t)
  {
    hide G.SameLive, G.Traced, Represents;
    var i := G.Item(id, G.Manifest);
    KeptRecord(s, s', i);
    KnownChild(s, i, s.objects[id][8..40], G.Node);
    RepresentsKept(s, s', s.objects[id][8..40], t);
  }

  lemma HoldsKept(s: L.State, s': L.State, refs: Refs, c: Contents)
    requires G.SameLive(s, s') && Holds(s.objects, refs, c) && forall k :: k in refs ==> refs[k] in s'.objects
    ensures Holds(s'.objects, refs, c)
  {
    hide G.Live;
  }

  /** A traced manifest means the same after a collection: its nodes and its payloads stay. */
  lemma MeansKept(p: Priority, s: L.State, s': L.State, id: Bytes, c: Contents)
    requires G.SameLive(s, s') && Known(s, id, G.Manifest) && Means(p, s.objects, id, c)
    ensures Means(p, s'.objects, id, c)
  {
    hide G.SameLive, Known, Represents, Ordered, Map, T.Height, KeysOk, Holds;
    var t :| TreeMeans(p, s.objects, id, t, c);
    ManifestKept(s, s', id, t);
    RepresentsValues(s'.objects, s'.objects[id][8..40], t);
    HoldsKept(s, s', Map(t), c);
    assert TreeMeans(p, s'.objects, id, t, c);
  }

  /** A traced revision keeps its contents and those of all its ancestors. */
  lemma {:induction false} LineageKept(p: Priority, s: L.State, s': L.State, id: Bytes, cs: seq<Contents>)
    requires G.SameLive(s, s') && Known(s, id, G.Revision) && Lineage(p, s.objects, id, cs)
    ensures Lineage(p, s'.objects, id, cs)
    decreases |cs|
  {
    hide G.SameLive, G.Traced, Means;
    if cs != [] {
      var i := G.Item(id, G.Revision);
      KeptRecord(s, s', i);
      KnownChild(s, i, s.objects[id][8..40], G.Manifest);
      KnownChild(s, i, s.objects[id][40..72], G.Revision);
      MeansKept(p, s, s', s.objects[id][8..40], cs[0]);
      LineageKept(p, s, s', s.objects[id][40..72], cs[1..]);
    }
  }
}
