/** The tree editor: path-copying loops, pending nodes, memoised heights and scans
    (daemon/metadata_tree.cpp). */
module MetadataTree {
  import opened Bytes
  import opened JournalCodec
  import opened Treap

  const MAX_DEPTH: nat := 256

  function Height(t: Id): nat {
    if t.Zero? then 0 else 1 + Max(Height(t.left), Height(t.right))
  }

  function Max(a: nat, b: nat): nat { if a < b then b else a }

  // ---- Which nodes can be read ----

  /** Every node of `t` is among `nodes`. */
  predicate Present(nodes: set<Id>, t: Id) {
    t.Zero? || (t in nodes && Present(nodes, t.left) && Present(nodes, t.right))
  }

  /** Every node of `t` is stored or waiting to be. */
  predicate Backed(store: set<Id>, pending: set<Id>, t: Id) {
    t.Zero? || Present(store, t) ||
    (t in pending && Backed(store, pending, t.left) && Backed(store, pending, t.right))
  }

  lemma {:induction false} PresentGrows(a: set<Id>, b: set<Id>, t: Id)
    requires Present(a, t) && a <= b
    ensures Present(b, t)
  {
    if t.Node? { PresentGrows(a, b, t.left); PresentGrows(a, b, t.right); }
  }

  lemma {:induction false} BackedGrows(store: set<Id>, a: set<Id>, b: set<Id>, t: Id)
    requires Backed(store, a, t) && a <= b
    ensures Backed(store, b, t)
  {
    if t.Node? && !Present(store, t) { BackedGrows(store, a, b, t.left); BackedGrows(store, a, b, t.right); }
  }

  lemma BackedChildren(store: set<Id>, pending: set<Id>, t: Id)
    requires t.Node? && Backed(store, pending, t)
    ensures Backed(store, pending, t.left) && Backed(store, pending, t.right)
  {
  }

  // ---- Paths ----

  datatype Step = Step(node: Id, left: bool)

  ghost predicate Steps(store: set<Id>, pending: set<Id>, path: seq<Step>) {
    forall s :: s in path ==>
      s.node.Node? && Backed(store, pending, s.node.left) && Backed(store, pending, s.node.right)
  }

  lemma StepsGrow(store: set<Id>, a: set<Id>, b: set<Id>, path: seq<Step>)
    requires Steps(store, a, path) && a <= b
    ensures Steps(store, b, path)
  {
    hide Backed;
    forall s | s in path ensures Backed(store, b, s.node.left) && Backed(store, b, s.node.right) {
      BackedGrows(store, a, b, s.node.left);
      BackedGrows(store, a, b, s.node.right);
    }
  }

  /** The edited subtree carried back up a search path, rotating on the way. */
  function Rebuild(p: Priority, path: seq<Step>, result: Id): Id
    requires forall s :: s in path ==> s.node.Node?
  {
    if path == [] then result
    else
      var s := path[|path| - 1];
      Rebuild(p, path[..|path| - 1], if s.left then RaiseLeft(p, s.node, result) else RaiseRight(p, s.node, result))
  }

  /** The merged subtree carried back up a merge path. */
  function Reattach(path: seq<Step>, result: Id): Id
    requires forall s :: s in path ==> s.node.Node?
  {
    if path == [] then result
    else
      var s := path[|path| - 1];
      Reattach(path[..|path| - 1], if s.left then s.node.(left := result) else s.node.(right := result))
  }

  lemma SearchStep(p: Priority, t: Id, key: Key, value: Option<Hash>, path: seq<Step>)
    requires t.Node? && key != t.key && (forall s :: s in path ==> s.node.Node?)
    ensures var down := Less(key, t.key);
            var next := path + [Step(t, down)];
            (forall s :: s in next ==> s.node.Node?) &&
            Rebuild(p, path, Set(p, t, key, value)) ==
              Rebuild(p, next, Set(p, if down then t.left else t.right, key, value))
  {
    hide Less, RaiseLeft, RaiseRight;
    var next := path + [Step(t, Less(key, t.key))];
    assert next[..|next| - 1] == path;
  }

  lemma MergeStep(p: Priority, l: Id, r: Id, path: seq<Step>)
    requires l.Node? && r.Node? && (forall s :: s in path ==> s.node.Node?)
    ensures var first := Higher(p, l.key, r.key);
            var next := path + [if first then Step(l, false) else Step(r, true)];
            (forall s :: s in next ==> s.node.Node?) &&
            Reattach(path, Merge(p, l, r)) ==
              Reattach(next, if first then Merge(p, l.right, r) else Merge(p, l, r.left))
  {
    hide Higher;
    var next := path + [if Higher(p, l.key, r.key) then Step(l, false) else Step(r, true)];
    assert next[..|next| - 1] == path;
  }

  /** Writing a value that is already there, or deleting an absent key, rebuilds the same tree. */
  lemma {:induction false} SetSame(p: Priority, t: Id, key: Key, value: Option<Hash>)
    requires Ordered(p, t) && Edit(Map(t), key, value) == Map(t)
    ensures Set(p, t, key, value) == t
  {
    hide Ordered, Set, Map;
    SetTreap(p, t, key, value);
    SetMap(p, t, key, value);
    Canonical(p, Set(p, t, key, value), t);
  }

  // ---- The editor ----

  class Editor {
    const p: Priority
    const store: set<Id>
    var root: Id
    var pending: set<Id>
    var heights: map<Id, nat>

    ghost predicate Valid()
      reads this
    {
      Ordered(p, root) && Backed(store, pending, root) && forall t :: t in heights ==> heights[t] == Height(t)
    }

    constructor (priority: Priority, nodes: set<Id>, top: Id)
      requires Ordered(priority, top) && Present(nodes, top)
      ensures Valid() && p == priority && store == nodes && root == top && pending == {}
    {
      p, store, root, pending, heights := priority, nodes, top, {}, map[];
    }

    method Make(n: Id)
      requires n.Node? && Backed(store, pending, n.left) && Backed(store, pending, n.right)
      modifies this`pending
      ensures pending == old(pending) + {n} && Backed(store, pending, n)
    {
      pending := pending + {n};
      BackedGrows(store, old(pending), pending, n.left);
      BackedGrows(store, old(pending), pending, n.right);
    }

    /** The merge loop: down both spines by priority, then back up copying the path. */
    method MergeTrees(l: Id, r: Id) returns (result: Id)
      requires Backed(store, pending, l) && Backed(store, pending, r)
      modifies this`pending
      ensures result == Merge(p, l, r) && old(pending) <= pending && Backed(store, pending, result)
    {
      hide Higher, Backed;
      var left, right := l, r;
      var path: seq<Step> := [];
      while left.Node? && right.Node?
        invariant pending == old(pending) && Steps(store, pending, path)
        invariant Backed(store, pending, left) && Backed(store, pending, right)
        invariant Reattach(path, Merge(p, left, right)) == Merge(p, l, r)
        decreases left, right
      {
        MergeStep(p, left, right, path);
        BackedChildren(store, pending, left);
        BackedChildren(store, pending, right);
        if Higher(p, left.key, right.key) {
          path, left := path + [Step(left, false)], left.right;
        } else {
          path, right := path + [Step(right, true)], right.left;
        }
      }
      result := if left.Zero? then right else left;
      while path != []
        invariant old(pending) <= pending && Steps(store, pending, path) && Backed(store, pending, result)
        invariant Reattach(path, result) == Merge(p, l, r)
        decreases |path|
      {
        var s := path[|path| - 1];
        path := path[..|path| - 1];
        result := if s.left then s.node.(left := result) else s.node.(right := result);
        ghost var before := pending;
        Make(result);
        StepsGrow(store, before, pending, path);
      }
    }

    /** The set loop: search, edit, then back up copying the path and rotating. */
    method SetKey(top: Id, key: Key, value: Option<Hash>) returns (result: Id)
      requires Ordered(p, top) && Backed(store, pending, top)
      modifies this`pending
      ensures result == Set(p, top, key, value) && old(pending) <= pending && Backed(store, pending, result)
    {
      hide *;
      var path: seq<Step> := [];
      var current := top;
      SearchStart(p, store, pending, top, key, value);
      while current.Node? && key != current.key
        invariant pending == old(pending) && Steps(store, pending, path) && Backed(store, pending, current)
        invariant (forall s :: s in path ==> s.node.Node?) && SameTarget(p, top, current, key)
        invariant Rebuild(p, path, Set(p, current, key, value)) == Set(p, top, key, value)
        decreases current
      {
        SearchStep(p, current, key, value, path);
        BackedChildren(store, pending, current);
        TargetBelow(p, top, current, key);
        var down := Less(key, current.key);
        StepsAdd(store, pending, path, Step(current, down));
        path, current := path + [Step(current, down)], if down then current.left else current.right;
      }
      TargetFound(p, top, current, key);
      if (current.Node? && value == Some(current.value)) || (current.Zero? && value.None?) {
        SetSame(p, top, key, value);
        return top;
      }
      ghost var before := pending;
      result := EditHere(current, key, value);
      StepsGrow(store, before, pending, path);
      result := Ascend(path, result);
    }

    /** The edit where the search ended: merge the children, replace the value, or add a leaf. */
    method EditHere(current: Id, key: Key, value: Option<Hash>) returns (result: Id)
      requires (current.Node? ==> current.key == key) && (current.Zero? ==> value.Some?)
      requires Backed(store, pending, current)
      modifies this`pending
      ensures result == Set(p, current, key, value) && old(pending) <= pending && Backed(store, pending, result)
    {
      hide Higher, Backed, Less, Merge;
      EmptyBacked(store, pending);
      if current.Node? { BackedChildren(store, pending, current); }
      if value.None? {
        result := MergeTrees(current.left, current.right);
      } else {
        result := if current.Node? then current.(value := value.value) else Node(key, value.value, Zero, Zero);
        Make(result);
      }
    }

    method Ascend(steps: seq<Step>, child: Id) returns (result: Id)
      requires Steps(store, pending, steps) && Backed(store, pending, child)
      modifies this`pending
      ensures (forall s :: s in steps ==> s.node.Node?) && result == Rebuild(p, steps, child)
      ensures old(pending) <= pending && Backed(store, pending, result)
    {
      hide Higher, Backed, RaiseLeft, RaiseRight;
      var path := steps;
      result := child;
      while path != []
        invariant old(pending) <= pending && Steps(store, pending, path) && Backed(store, pending, result)
        invariant Rebuild(p, path, result) == Rebuild(p, steps, child)
        decreases |path|
      {
        var s := path[|path| - 1];
        path := path[..|path| - 1];
        ghost var before := pending;
        result := Raise(s, result);
        StepsGrow(store, before, pending, path);
      }
    }

    /** The memoised height check: it succeeds exactly when the tree fits below `depth`. */
    method CheckHeight(t: Id, depth: nat) returns (h: Option<nat>)
      requires depth <= MAX_DEPTH && forall x :: x in heights ==> heights[x] == Height(x)
      modifies this`heights
      ensures forall x :: x in heights ==> heights[x] == Height(x)
      ensures h == if t.Zero? || depth + Height(t) <= MAX_DEPTH then Some(Height(t)) else None
      decreases t
    {
      if t.Zero? { return Some(0); }
      if depth >= MAX_DEPTH { return None; }
      if t in heights { return if heights[t] <= MAX_DEPTH - depth then Some(heights[t]) else None; }
      var l := CheckHeight(t.left, depth + 1);
      if l.None? { return None; }
      var r := CheckHeight(t.right, depth + 1);
      if r.None? { return None; }
      heights := heights[t := 1 + Max(l.value, r.value)];
      return Some(1 + Max(l.value, r.value));
    }

    /** Lists the pending nodes of a tree, children first, each once. */
    method Collect(t: Id, visited: set<Id>, objects: seq<Id>) returns (visited': set<Id>, objects': seq<Id>)
      requires Backed(store, pending, t) && Settled(store, objects, visited, Height(t) + 1)
      requires Elements(objects) <= pending
      requires Once(objects, visited)
      ensures Present(store + Elements(objects'), t) && objects <= objects' && Elements(objects') <= pending
      ensures visited <= visited' && forall v :: v in visited' - visited ==> Present(store + Elements(objects'), v)
      ensures Once(objects', visited') && Elements(objects') * visited <= Elements(objects)
      decreases t
    {
      hide Once;
      visited', objects' := visited, objects;
      if t.Zero? || t !in pending || t in visited {
        CollectedAlready(store, pending, objects, visited, t);
        return;
      }
      BackedChildren(store, pending, t);
      visited' := visited' + {t};
      SettledDeeper(store, objects, visited, t);
      OnceMore(objects, visited, t);
      visited', objects' := Collect(t.left, visited', objects');
      ghost var v1, o1 := visited', objects';
      SettledAgain(store, objects, visited + {t}, objects', visited', Height(t.right) + 1);
      visited', objects' := Collect(t.right, visited', objects');
      CollectedNode(store, t, o1, objects', visited, v1, visited');
      OnceSnoc(objects', visited', t);
      objects' := objects' + [t];
    }

    /** Applies a change list key by key to the current root, without moving it. */
    method Candidate(changes: Changes) returns (candidate: Id)
      requires Valid()
      modifies this`pending
      ensures old(pending) <= pending && Valid()
      ensures Ordered(p, candidate) && Backed(store, pending, candidate)
      ensures Map(candidate) == ApplyChanges(Map(root), changes)
    {
      hide Ordered, Backed, Set, Map, Less, Height, SortedKeys, Sorted, ApplyChanges, First, Edit;
      var keys := ListKeys(changes.Keys);
      candidate := root;
      ApplyNone(Map(root), changes, keys);
      for i := 0 to |keys|
        invariant old(pending) <= pending && Valid()
        invariant Ordered(p, candidate) && Backed(store, pending, candidate)
        invariant Map(candidate) == ApplyChanges(Map(root), First(changes, keys, i))
      {
        assert keys[i] in keys;
        ghost var before := pending;
        ApplyOne(Map(root), changes, keys, i);
        SetTreap(p, candidate, keys[i], changes[keys[i]]);
        SetMap(p, candidate, keys[i], changes[keys[i]]);
        candidate := SetKey(candidate, keys[i], changes[keys[i]]);
        BackedGrows(store, before, pending, root);
      }
      ApplyEvery(Map(root), changes, keys);
    }

    /** One publication: the edited tree, or nothing; the plan carries every node the
        store lacks, and the published tree is never deeper than lookups allow. */
    method Apply(changes: Changes) returns (plan: Option<Plan>)
      requires Valid()
      modifies this
      ensures Valid() && old(pending) <= pending
      ensures plan.None? ==> root == old(root)
      ensures plan.Some? ==>
        root == plan.value.root && Map(root) == ApplyChanges(Map(old(root)), changes) && ROOT in Map(root) &&
        Present(store + Elements(plan.value.objects), root) && NoRepeats(plan.value.objects) &&
        (root == old(root) || Height(root) <= MAX_DEPTH)
      ensures !Acceptable(changes) ==> plan.None?
      ensures Height(old(root)) <= MAX_DEPTH && plan.None? ==>
        !Acceptable(changes) || ROOT !in ApplyChanges(Map(old(root)), changes) ||
        (exists t :: Ordered(p, t) && Map(t) == ApplyChanges(Map(old(root)), changes) && Height(t) > MAX_DEPTH)
    {
      hide Ordered, Backed, Present, Map, Height, Settled, ApplyChanges, AcceptableChange, Elements, Once;
      if !Acceptable(changes) { return None; }
      RootKept(Map(root), changes);
      if ROOT !in changes {
        var found := Lookup(ROOT);
        if found.None? || found.value.None? { return None; }
      }
      var candidate := Candidate(changes);
      if candidate != root {
        var h := CheckHeight(candidate, 0);
        if h.None? { return None; }
        ZeroFits();
      }
      NothingSettled(store, Height(candidate) + 1);
      var visited, objects := Collect(candidate, {}, []);
      OnceIs(objects, visited);
      root := candidate;
      plan := Some(Plan(candidate, objects));
    }

    /** Point lookup; it can only run out of depth on a tree deeper than the limit. */
    method Lookup(key: Key) returns (found: Option<Option<Hash>>)
      requires Valid()
      ensures Height(root) <= MAX_DEPTH ==> found.Some?
      ensures found.Some? ==> found.value == if key in Map(root) then Some(Map(root)[key]) else None
    {
      hide Ordered, Set, Map, Less, Backed;
      var current, depth := root, 0;
      SearchStart(p, store, pending, root, key, None);
      while current.Node?
        invariant SameTarget(p, root, current, key) && depth + Height(current) <= Height(root)
        decreases current
      {
        if depth >= MAX_DEPTH { return None; }
        depth := depth + 1;
        if key == current.key {
          TargetFound(p, root, current, key);
          return Some(Some(current.value));
        }
        TargetBelow(p, root, current, key);
        current := if Less(key, current.key) then current.left else current.right;
      }
      TargetFound(p, root, current, key);
      return Some(None);
    }

    /** One step up: put the edited child back and rotate it above its parent if it wins. */
    method Raise(s: Step, child: Id) returns (result: Id)
      requires s.node.Node? && Backed(store, pending, child)
      requires Backed(store, pending, s.node.left) && Backed(store, pending, s.node.right)
      modifies this`pending
      ensures result == if s.left then RaiseLeft(p, s.node, child) else RaiseRight(p, s.node, child)
      ensures old(pending) <= pending && Backed(store, pending, result)
    {
      hide Higher, Backed;
      var n := s.node;
      if child.Node? && Higher(p, child.key, n.key) {
        BackedChildren(store, pending, child);
        var lower := if s.left then n.(left := child.right) else n.(right := child.left);
        Make(lower);
        BackedGrows(store, old(pending), pending, child.left);
        BackedGrows(store, old(pending), pending, child.right);
        result := if s.left then child.(right := lower) else child.(left := lower);
        Make(result);
      } else {
        result := if s.left then n.(left := child) else n.(right := child);
        Make(result);
      }
    }
  }

  lemma SearchStart(p: Priority, store: set<Id>, pending: set<Id>, top: Id, key: Key, value: Option<Hash>)
    requires Ordered(p, top)
    ensures Steps(store, pending, []) && SameTarget(p, top, top, key)
    ensures Rebuild(p, [], Set(p, top, key, value)) == Set(p, top, key, value)
  {
    hide Ordered, Set, Map, Backed;
  }

  lemma StepsAdd(store: set<Id>, pending: set<Id>, path: seq<Step>, s: Step)
    requires Steps(store, pending, path) && s.node.Node?
    requires Backed(store, pending, s.node.left) && Backed(store, pending, s.node.right)
    ensures Steps(store, pending, path + [s])
  {
    hide Backed;
  }

  lemma EmptyBacked(store: set<Id>, pending: set<Id>)
    ensures Backed(store, pending, Zero)
  {
  }

  /** The search for `key` in `top` goes on in `current`. */
  ghost predicate SameTarget(p: Priority, top: Id, current: Id, key: Key) {
    Ordered(p, current) && (key in Map(top) <==> key in Map(current)) &&
    (key in Map(top) ==> Map(top)[key] == Map(current)[key])
  }

  lemma TargetBelow(p: Priority, top: Id, current: Id, key: Key)
    requires SameTarget(p, top, current, key) && current.Node? && key != current.key
    ensures SameTarget(p, top, if Less(key, current.key) then current.left else current.right, key)
  {
    hide Less, Higher, Under;
    LessTotal(key, current.key);
    SplitMap(p, current);
    if Less(key, current.key) { LessAsymmetric(key, current.key); }
  }

  lemma TargetFound(p: Priority, top: Id, current: Id, key: Key)
    requires SameTarget(p, top, current, key) && (current.Node? ==> current.key == key)
    ensures current.Node? ==>
      key in Map(top) && Map(top)[key] == current.value && Edit(Map(top), key, Some(current.value)) == Map(top)
    ensures current.Zero? ==> key !in Map(top) && Edit(Map(top), key, None) == Map(top)
  {
    hide Less, Higher, Below, Above, Under;
  }

  // ---- Plans ----

  /** The published root and the nodes to store with it. */
  datatype Plan = Plan(root: Id, objects: seq<Id>)

  predicate ValidKey(k: Key) {
    8 <= |k| <= 1024 && StartsWith(k, PREFIX)
  }

  predicate AcceptableChange(k: Key, change: Option<Hash>) {
    ValidKey(k) && (change.Some? ==> change.value != NO_HASH) && (k == ROOT ==> change.Some?)
  }

  predicate Acceptable(changes: Changes) {
    forall k :: k in changes ==> AcceptableChange(k, changes[k])
  }

  ghost predicate Settled(store: set<Id>, objects: seq<Id>, visited: set<Id>, height: nat) {
    forall v :: v in visited ==> Present(store + Elements(objects), v) || Height(v) >= height
  }

  /** The nodes listed so far are visited ones, each once. */
  ghost predicate Once(objects: seq<Id>, visited: set<Id>) {
    NoRepeats(objects) && Elements(objects) <= visited
  }

  lemma OnceIs(objects: seq<Id>, visited: set<Id>)
    requires Once(objects, visited)
    ensures NoRepeats(objects)
  {
  }

  lemma OnceMore(objects: seq<Id>, visited: set<Id>, t: Id)
    requires Once(objects, visited) && t !in visited
    ensures Once(objects, visited + {t}) && t !in Elements(objects)
  {
  }

  lemma OnceSnoc(objects: seq<Id>, visited: set<Id>, t: Id)
    requires Once(objects, visited) && t in visited && t !in Elements(objects)
    ensures Once(objects + [t], visited) && Elements(objects + [t]) == Elements(objects) + {t}
  {
  }

  lemma NothingSettled(store: set<Id>, height: nat)
    ensures Settled(store, [], {}, height) && Elements<Id>([]) == {} && Once([], {})
  {
  }

  lemma CollectedAlready(store: set<Id>, pending: set<Id>, objects: seq<Id>, visited: set<Id>, t: Id)
    requires Backed(store, pending, t) && Settled(store, objects, visited, Height(t) + 1)
    requires (t.Zero? || t !in pending || t in visited)
    ensures Present(store + Elements(objects), t)
  {
    if t.Node? && t !in visited { PresentGrows(store, store + Elements(objects), t); }
  }

  lemma SettledDeeper(store: set<Id>, objects: seq<Id>, visited: set<Id>, t: Id)
    requires t.Node? && Settled(store, objects, visited, Height(t) + 1)
    ensures Settled(store, objects, visited + {t}, Height(t.left) + 1)
    ensures Settled(store, objects, visited + {t}, Height(t.right) + 1)
  {
    hide Present, Height;
    HeightChild(t);
  }

  lemma HeightChild(t: Id)
    requires t.Node?
    ensures Height(t.left) + 1 <= Height(t) && Height(t.right) + 1 <= Height(t)
  {
  }

  lemma ElementsGrow(a: seq<Id>, b: seq<Id>)
    requires a <= b
    ensures Elements(a) <= Elements(b)
  {
    forall x | x in a ensures x in b {
      var i :| 0 <= i < |a| && a[i] == x;
      assert b[i] == x;
    }
  }

  lemma SettledAgain(store: set<Id>, objects: seq<Id>, visited: set<Id>, objects': seq<Id>, visited': set<Id>,
                     height: nat)
    requires Settled(store, objects, visited, height) && objects <= objects'
    requires forall v :: v in visited' - visited ==> Present(store + Elements(objects'), v)
    ensures Settled(store, objects', visited', height)
  {
    hide Present;
    ElementsGrow(objects, objects');
    forall v | v in visited' ensures Present(store + Elements(objects'), v) || Height(v) >= height {
      if v in visited && Present(store + Elements(objects), v) {
        PresentGrows(store + Elements(objects), store + Elements(objects'), v);
      }
    }
  }

  lemma CollectedNode(store: set<Id>, t: Id, o1: seq<Id>, o2: seq<Id>, visited: set<Id>, v1: set<Id>, v2: set<Id>)
    requires t.Node? && o1 <= o2 && Present(store + Elements(o1), t.left) && Present(store + Elements(o2), t.right)
    requires forall v :: v in v1 - (visited + {t}) ==> Present(store + Elements(o1), v)
    requires forall v :: v in v2 - v1 ==> Present(store + Elements(o2), v)
    ensures var all := store + Elements(o2 + [t]);
            Present(all, t) && Elements(o2 + [t]) == Elements(o2) + {t} &&
            forall v :: v in v2 - visited ==> v == t || Present(all, v)
  {
    var all := store + Elements(o2 + [t]);
    ElementsGrow(o1, o2);
    assert Elements(o2 + [t]) == Elements(o2) + {t};
    PresentGrows(store + Elements(o1), all, t.left);
    PresentGrows(store + Elements(o2), all, t.right);
    hide Present;
    forall v | v in v2 - visited && v != t ensures Present(all, v) {
      if v in v1 {
        PresentGrows(store + Elements(o1), all, v);
      } else {
        PresentGrows(store + Elements(o2), all, v);
      }
    }
  }

  lemma ZeroFits()
    ensures Height(Zero) <= MAX_DEPTH
  {
  }

  // ---- A change list applied key by key ----

  function First(changes: Changes, keys: seq<Key>, n: nat): Changes
    requires n <= |keys|
  {
    map k | k in keys[..n] && k in changes :: changes[k]
  }

  lemma ApplyNone(m: map<Key, Hash>, changes: Changes, keys: seq<Key>)
    ensures ApplyChanges(m, First(changes, keys, 0)) == m
  {
  }

  lemma ApplyOne(m: map<Key, Hash>, changes: Changes, keys: seq<Key>, i: nat)
    requires i < |keys| && keys[i] in changes
    ensures ApplyChanges(m, First(changes, keys, i + 1)) ==
      Edit(ApplyChanges(m, First(changes, keys, i)), keys[i], changes[keys[i]])
  {
    assert keys[..i + 1] == keys[..i] + [keys[i]];
    assert First(changes, keys, i + 1) == First(changes, keys, i)[keys[i] := changes[keys[i]]];
    hide First;
    ApplyExtended(m, First(changes, keys, i), keys[i], changes[keys[i]]);
  }

  lemma ApplyExtended(m: map<Key, Hash>, changes: Changes, k: Key, change: Option<Hash>)
    ensures ApplyChanges(m, changes[k := change]) == Edit(ApplyChanges(m, changes), k, change)
  {
  }

  lemma ApplyEvery(m: map<Key, Hash>, changes: Changes, keys: seq<Key>)
    requires forall k :: k in keys <==> k in changes
    ensures ApplyChanges(m, First(changes, keys, |keys|)) == ApplyChanges(m, changes)
  {
    assert keys[..|keys|] == keys;
    assert First(changes, keys, |keys|) == changes;
  }

  lemma RootKept(m: map<Key, Hash>, changes: Changes)
    requires Acceptable(changes)
    ensures ROOT in ApplyChanges(m, changes) <==> ROOT in changes || ROOT in m
  {
    hide ValidKey;
  }
}
