/** The directory graph of a namespace: one parent per directory, everything reachable
    from the root, and what edits keep that (daemon/namespace.cpp, verify and rename). */
module DirectoryTree {
  import opened Bytes
  import opened Paths

  type Ident = Bytes

  datatype Slot = Slot(dir: Ident, name: Name)

  datatype Shape = Shape(root: Ident, dirs: set<Ident>, entries: map<Slot, Ident>)

  ghost predicate Edge(g: Shape, a: Ident, b: Ident) {
    exists s :: s in g.entries && s.dir == a && g.entries[s] == b
  }

  /** Directories from the root down, each an entry of the one before. */
  ghost predicate Chain(g: Shape, path: seq<Ident>) {
    path != [] && path[0] == g.root && (forall i :: 0 <= i < |path| ==> path[i] in g.dirs) &&
    forall i :: 0 < i < |path| ==> Edge(g, path[i - 1], path[i])
  }

  ghost predicate ChainTo(g: Shape, path: seq<Ident>, d: Ident) {
    Chain(g, path) && path[|path| - 1] == d
  }

  ghost predicate Reached(g: Shape, d: Ident) {
    exists path :: ChainTo(g, path, d)
  }

  /** Entries lie in directories, none names the root, and no two name one directory. */
  ghost predicate Single(g: Shape) {
    g.root in g.dirs &&
    (forall s :: s in g.entries ==> s.dir in g.dirs && g.entries[s] != g.root) &&
    forall s, t :: s in g.entries && t in g.entries && g.entries[s] == g.entries[t] && g.entries[s] in g.dirs ==> s == t
  }

  ghost predicate AllReached(g: Shape) {
    forall d :: d in g.dirs ==> Reached(g, d)
  }

  ghost predicate Tree(g: Shape) {
    Single(g) && AllReached(g)
  }

  // ---- Chains ----

  lemma ChainSnoc(g: Shape, path: seq<Ident>, b: Ident)
    requires Chain(g, path) && Edge(g, path[|path| - 1], b) && b in g.dirs
    ensures ChainTo(g, path + [b], b)
  {
    hide Edge;
  }

  lemma ChainPrefix(g: Shape, path: seq<Ident>, n: nat)
    requires Chain(g, path) && 0 < n <= |path|
    ensures ChainTo(g, path[..n], path[n - 1])
  {
    hide Edge;
  }

  /** A chain whose nodes and edges survive an edit is a chain after it. */
  lemma ChainKept(g: Shape, g': Shape, path: seq<Ident>)
    requires Chain(g, path) && g'.root == g.root
    requires forall b :: b in path ==> b in g'.dirs
    requires forall a, b :: b in path && Edge(g, a, b) ==> Edge(g', a, b)
    ensures Chain(g', path)
  {
    hide Edge;
    forall i | 0 < i < |path| ensures Edge(g', path[i - 1], path[i]) { assert path[i] in path; }
  }

  /** A directory has one chain. */
  lemma {:induction false} ChainUnique(g: Shape, p: seq<Ident>, q: seq<Ident>)
    requires Single(g) && Chain(g, p) && Chain(g, q) && p[|p| - 1] == q[|q| - 1]
    ensures p == q
    decreases |p|
  {
    var n, m := |p| - 1, |q| - 1;
    if n > 0 { assert Edge(g, p[n - 1], p[n]); }
    if m > 0 { assert Edge(g, q[m - 1], q[m]); }
    if n > 0 && m > 0 {
      ChainPrefix(g, p, n);
      ChainPrefix(g, q, m);
      ChainUnique(g, p[..n], q[..m]);
      assert p == p[..n] + [p[n]] && q == q[..m] + [q[m]];
    } else {
      assert n == 0 && m == 0;
    }
  }

  // ---- Adding, removing and moving an entry ----

  function Grown(g: Shape, slot: Slot, id: Ident, directory: bool): Shape {
    g.(dirs := if directory then g.dirs + {id} else g.dirs, entries := g.entries[slot := id])
  }

  lemma EdgeGrows(g: Shape, slot: Slot, id: Ident, directory: bool, a: Ident, b: Ident)
    requires slot !in g.entries && Edge(g, a, b)
    ensures Edge(Grown(g, slot, id, directory), a, b)
  {
    var s :| s in g.entries && s.dir == a && g.entries[s] == b;
    assert s in Grown(g, slot, id, directory).entries;
  }

  lemma ReachedGrows(g: Shape, slot: Slot, id: Ident, directory: bool, d: Ident)
    requires slot !in g.entries && Reached(g, d)
    ensures Reached(Grown(g, slot, id, directory), d)
  {
    hide Edge;
    var path :| ChainTo(g, path, d);
    forall a, b | b in path && Edge(g, a, b) ensures Edge(Grown(g, slot, id, directory), a, b) {
      EdgeGrows(g, slot, id, directory, a, b);
    }
    ChainKept(g, Grown(g, slot, id, directory), path);
    assert ChainTo(Grown(g, slot, id, directory), path, d);
  }

  lemma SingleGrown(g: Shape, slot: Slot, id: Ident, directory: bool)
    requires Single(g) && slot !in g.entries && slot.dir in g.dirs && id !in g.dirs
    requires directory ==> forall s :: s in g.entries ==> g.entries[s] != id
    ensures Single(Grown(g, slot, id, directory))
  {
  }

  /** A new name for a file, or the first name of a new directory, keeps the tree. */
  lemma TreeGrown(g: Shape, slot: Slot, id: Ident, directory: bool)
    requires Tree(g) && slot !in g.entries && slot.dir in g.dirs && id !in g.dirs
    requires directory ==> forall s :: s in g.entries ==> g.entries[s] != id
    ensures Tree(Grown(g, slot, id, directory))
  {
    hide Edge, Chain;
    var g' := Grown(g, slot, id, directory);
    SingleGrown(g, slot, id, directory);
    forall d | d in g.dirs ensures Reached(g', d) { ReachedGrows(g, slot, id, directory, d); }
    if directory { NewReached(g', slot, id); }
  }

  lemma NewReached(g: Shape, slot: Slot, id: Ident)
    requires slot in g.entries && g.entries[slot] == id && id in g.dirs && Reached(g, slot.dir)
    ensures Reached(g, id)
  {
    hide Chain;
    var path :| ChainTo(g, path, slot.dir);
    ChainNonempty(g, path);
    ChainSnoc(g, path, id);
  }

  lemma ChainNonempty(g: Shape, path: seq<Ident>)
    requires Chain(g, path)
    ensures path != []
  {
  }

  function Pruned(g: Shape, slot: Slot): Shape
    requires slot in g.entries
  {
    g.(dirs := g.dirs - {g.entries[slot]}, entries := g.entries - {slot})
  }

  ghost predicate Bare(g: Shape, id: Ident) {
    forall s :: s in g.entries ==> s.dir != id
  }

  lemma BareLast(g: Shape, path: seq<Ident>, id: Ident)
    requires Chain(g, path) && Bare(g, id) && path[|path| - 1] != id
    ensures id !in path
  {
    forall i | 0 <= i < |path| ensures path[i] != id {
      if i + 1 < |path| { assert Edge(g, path[i + 1 - 1], path[i + 1]); }
    }
  }

  lemma ChainPruned(g: Shape, slot: Slot, path: seq<Ident>, d: Ident)
    requires slot in g.entries && Bare(g, g.entries[slot]) && ChainTo(g, path, d) && d != g.entries[slot]
    ensures ChainTo(Pruned(g, slot), path, d)
  {
    var id, g' := g.entries[slot], Pruned(g, slot);
    BareLast(g, path, id);
    forall a, b | b in path && Edge(g, a, b) ensures Edge(g', a, b) {
      var s :| s in g.entries && s.dir == a && g.entries[s] == b;
      assert s in g'.entries;
    }
    ChainKept(g, g', path);
  }

  lemma ReachedPruned(g: Shape, slot: Slot, d: Ident)
    requires slot in g.entries && Bare(g, g.entries[slot]) && Reached(g, d) && d != g.entries[slot]
    ensures Reached(Pruned(g, slot), d)
  {
    hide ChainTo;
    var path :| ChainTo(g, path, d);
    ChainPruned(g, slot, path, d);
  }

  /** Dropping a name of a file, or the name of an empty directory, keeps the tree. */
  lemma TreePruned(g: Shape, slot: Slot)
    requires Tree(g) && slot in g.entries && Bare(g, g.entries[slot])
    ensures Tree(Pruned(g, slot))
  {
    hide Edge, Chain;
    forall d | d in Pruned(g, slot).dirs ensures Reached(Pruned(g, slot), d) { ReachedPruned(g, slot, d); }
    SinglePruned(g, slot);
  }

  lemma SinglePruned(g: Shape, slot: Slot)
    requires Single(g) && slot in g.entries && Bare(g, g.entries[slot])
    ensures Single(Pruned(g, slot))
  {
  }

  function Moved(g: Shape, s: Slot, t: Slot): Shape
    requires s in g.entries
  {
    g.(entries := (g.entries - {s})[t := g.entries[s]])
  }

  lemma SingleMoved(g: Shape, s: Slot, t: Slot)
    requires Single(g) && s in g.entries && t !in g.entries && t.dir in g.dirs
    ensures Single(Moved(g, s, t))
  {
    var g' := Moved(g, s, t);
    forall a, b | a in g'.entries && b in g'.entries && g'.entries[a] == g'.entries[b] && g'.entries[a] in g'.dirs
      ensures a == b
    {
      var a', b' := if a == t then s else a, if b == t then s else b;
      assert a' in g.entries && b' in g.entries && g.entries[a'] == g.entries[b'];
    }
    forall a | a in g'.entries ensures a.dir in g'.dirs && g'.entries[a] != g'.root {
      if a != t { assert a in g.entries; }
    }
  }

  lemma EdgeMoved(g: Shape, s: Slot, t: Slot, a: Ident, b: Ident)
    requires s in g.entries && t !in g.entries && b != g.entries[s]
    ensures Edge(Moved(g, s, t), a, b) <==> Edge(g, a, b)
  {
    var g' := Moved(g, s, t);
    if Edge(g, a, b) { var e :| e in g.entries && e.dir == a && g.entries[e] == b; assert e in g'.entries; }
    if Edge(g', a, b) { var e :| e in g'.entries && e.dir == a && g'.entries[e] == b; assert e in g.entries; }
  }

  /** A chain that avoids the moved entry's child stands before and after alike. */
  lemma ChainAvoiding(g: Shape, s: Slot, t: Slot, path: seq<Ident>)
    requires s in g.entries && t !in g.entries && g.entries[s] !in path
    ensures Chain(Moved(g, s, t), path) <==> Chain(g, path)
  {
    hide Edge, Moved;
    var g' := Moved(g, s, t);
    MovedFrame(g, s, t);
    forall a, b | b in path ensures Edge(g, a, b) <==> Edge(g', a, b) { EdgeMoved(g, s, t, a, b); }
    if Chain(g, path) { ChainKept(g, g', path); }
    if Chain(g', path) { ChainKept(g', g, path); }
  }

  lemma MovedFrame(g: Shape, s: Slot, t: Slot)
    requires s in g.entries
    ensures Moved(g, s, t).root == g.root && Moved(g, s, t).dirs == g.dirs
    ensures t in Moved(g, s, t).entries && Moved(g, s, t).entries[t] == g.entries[s]
  {
  }

  lemma {:induction false} LastOccurrence(path: seq<Ident>, id: Ident) returns (i: nat)
    requires id in path
    ensures i < |path| && path[i] == id && id !in path[i + 1..]
  {
    var n := |path| - 1;
    if path[n] == id {
      i := n;
    } else {
      assert path == path[..n] + [path[n]];
      i := LastOccurrence(path[..n], id);
      assert path[i + 1..] == path[..n][i + 1..] + [path[n]];
    }
  }

  /** A chain through the moved directory is re-rooted along the new parent's chain. */
  lemma ReachedMoved(g: Shape, s: Slot, t: Slot, up: seq<Ident>, d: Ident)
    requires s in g.entries && t !in g.entries && ChainTo(g, up, t.dir) && g.entries[s] in g.dirs && g.entries[s] !in up
    requires Reached(g, d)
    ensures Reached(Moved(g, s, t), d)
  {
    hide Edge, Moved;
    var id, g' := g.entries[s], Moved(g, s, t);
    MovedFrame(g, s, t);
    var path :| ChainTo(g, path, d);
    if id !in path {
      ChainAvoiding(g, s, t, path);
      assert ChainTo(g', path, d);
    } else {
      var i := LastOccurrence(path, id);
      ChainAvoiding(g, s, t, up);
      assert Edge(g', t.dir, id) by { NewEdge(g', t, id); }
      Spliced(g, g', s, t, up, path, i);
      assert ChainTo(g', up + path[i..], d);
    }
  }

  lemma NewEdge(g: Shape, t: Slot, id: Ident)
    requires t in g.entries && g.entries[t] == id
    ensures Edge(g, t.dir, id)
  {
  }

  lemma Spliced(g: Shape, g': Shape, s: Slot, t: Slot, up: seq<Ident>, path: seq<Ident>, i: nat)
    requires s in g.entries && t !in g.entries && g' == Moved(g, s, t) && g.entries[s] in g.dirs
    requires Chain(g, path) && i < |path| && path[i] == g.entries[s] && g.entries[s] !in path[i + 1..]
    requires ChainTo(g', up, t.dir) && Edge(g', t.dir, g.entries[s])
    ensures ChainTo(g', up + path[i..], path[|path| - 1])
  {
    hide Edge, Moved;
    MovedFrame(g, s, t);
    var q := up + path[i..];
    forall j | 0 <= j < |q| ensures q[j] in g'.dirs { }
    forall j | 0 < j < |q| ensures Edge(g', q[j - 1], q[j]) {
      if j > |up| {
        var k := i + j - |up|;
        assert q[j] == path[k] && q[j - 1] == path[k - 1] && path[k] in path[i + 1..];
        EdgeMoved(g, s, t, path[k - 1], path[k]);
      }
    }
  }

  /** Moving a name keeps the tree when the child is a file, or a directory outside the
      chain of its new parent. */
  lemma TreeMoved(g: Shape, s: Slot, t: Slot, up: seq<Ident>)
    requires Tree(g) && s in g.entries && t !in g.entries && ChainTo(g, up, t.dir)
    requires g.entries[s] in g.dirs ==> g.entries[s] !in up
    ensures Tree(Moved(g, s, t))
  {
    hide Edge, Moved, Single, ChainTo;
    MovedFrame(g, s, t);
    assert t.dir in g.dirs by { LastIsDirectory(g, up, t.dir); }
    SingleMoved(g, s, t);
    forall d | d in g.dirs ensures Reached(Moved(g, s, t), d) {
      if g.entries[s] in g.dirs { ReachedMoved(g, s, t, up, d); } else { ReachedFile(g, s, t, d); }
    }
  }

  lemma LastIsDirectory(g: Shape, path: seq<Ident>, d: Ident)
    requires ChainTo(g, path, d)
    ensures d in g.dirs && path != []
  {
  }

  lemma ReachedFile(g: Shape, s: Slot, t: Slot, d: Ident)
    requires s in g.entries && t !in g.entries && g.entries[s] !in g.dirs && Reached(g, d)
    ensures Reached(Moved(g, s, t), d)
  {
    hide Edge, Moved;
    var path :| ChainTo(g, path, d);
    ChainAvoiding(g, s, t, path);
    assert ChainTo(Moved(g, s, t), path, d);
  }

  /** Moving a directory below itself always cuts it off, so the ancestry test is exact. */
  lemma MoveBelowSelf(g: Shape, s: Slot, t: Slot, up: seq<Ident>)
    requires Single(g) && s in g.entries && t !in g.entries && ChainTo(g, up, t.dir) && g.entries[s] in g.dirs
    requires g.entries[s] in up
    ensures !Reached(Moved(g, s, t), g.entries[s])
  {
    hide Moved;
    var id, g' := g.entries[s], Moved(g, s, t);
    MovedFrame(g, s, t);
    if Reached(g', id) {
      var path :| ChainTo(g', path, id);
      var n := |path| - 1;
      SingleMoved(g, s, t);
      assert n > 0;
      assert Edge(g', path[n - 1], path[n]);
      ParentIs(g', t, path[n - 1], id);
      FirstTime(g', path, id);
      ChainPrefix(g', path, n);
      ChainAvoiding(g, s, t, path[..n]);
      ChainUnique(g, path[..n], up);
      assert false;
    }
  }

  lemma ParentIs(g: Shape, t: Slot, a: Ident, id: Ident)
    requires Single(g) && t in g.entries && g.entries[t] == id && id in g.dirs && Edge(g, a, id)
    ensures a == t.dir
  {
  }

  /** A chain visits its last directory once. */
  lemma FirstTime(g: Shape, path: seq<Ident>, id: Ident)
    requires Single(g) && ChainTo(g, path, id)
    ensures id !in path[..|path| - 1]
  {
    hide Edge, Single;
    var n := |path| - 1;
    if id in path[..n] {
      var i :| 0 <= i < n && path[i] == id;
      ChainPrefix(g, path, i + 1);
      ChainUnique(g, path, path[..i + 1]);
      assert false;
    }
  }
}
