/** Path walking with symlinks and dot names (daemon/namespace.cpp, walk, parent, resolve). */
module Walk {
  import opened Bytes
  import opened Paths
  import opened DirectoryTree
  import opened Namespace

  const MAX_FOLLOWS: nat := 40
  const MAX_EXPANSION: nat := 65536

  /** Where a walk ends: at an inode with the stack above it, at a free name, or nowhere. */
  datatype Walked = Found(stack: seq<Ident>) | Missing(slot: Slot) | Failed

  function Last(stack: seq<Ident>): Ident
    requires stack != []
  {
    stack[|stack| - 1]
  }

  predicate IsDirectory(v: View, id: Ident) {
    id in v.inodes && v.inodes[id].kind.Directory?
  }

  predicate IsSymlink(v: View, id: Ident) {
    id in v.inodes && v.inodes[id].kind.Symlink?
  }

  /** The walk by rule, one pending name at a time. */
  ghost function Resolve(v: View, stack: seq<Ident>, pending: seq<Name>, follows: nat, expanded: nat, final: bool,
                         create: bool): Walked
    requires stack != []
    decreases MAX_FOLLOWS - follows, |pending|
  {
    if pending == [] then Found(stack)
    else
      var name, rest, slot := pending[0], pending[1..], Slot(Last(stack), pending[0]);
      if !IsDirectory(v, slot.dir) then Failed
      else if name == DOT then Resolve(v, stack, rest, follows, expanded, final, create)
      else if name == DOTDOT
      then Resolve(v, if |stack| > 1 then stack[..|stack| - 1] else stack, rest, follows, expanded, final, create)
      else if slot !in v.entries then (if create && rest == [] then Missing(slot) else Failed)
      else
        var child := v.entries[slot];
        if child !in v.inodes then Failed
        else if v.inodes[child].kind.Symlink? && (final || rest != []) then
          (if follows >= MAX_FOLLOWS || child !in v.contents || |v.contents[child]| != v.inodes[child].size then Failed
           else
             var target := v.contents[child];
             var parts := Target(target);
             if parts.None? || expanded + |target| > MAX_EXPANSION then Failed
             else
               var start := if target[0] == SLASH then stack[..1] else stack;
               Resolve(v, start, parts.value + rest, follows + 1, expanded + |target|, final, create))
        else Resolve(v, stack + [child], rest, follows, expanded, final, create)
  }

  ghost function Resolved(v: View, names: seq<Name>, final: bool, create: bool): Walked {
    if v.root.None? then Failed else Resolve(v, [v.root.value], names, 0, 0, final, create)
  }

  // ---- Names met on the way ----

  predicate Usable(n: Name) {
    0 < |n| <= 255 && Printable(n) && SLASH !in n
  }

  predicate AllUsable(names: seq<Name>) {
    forall n :: n in names ==> Usable(n)
  }

  lemma UsableName(n: Name)
    requires Usable(n)
    ensures n != DOT && n != DOTDOT ==> ValidName(n)
  {
  }

  lemma {:induction false} SplitPrintable(s: Bytes)
    requires Printable(s)
    ensures forall n :: n in Split(s) ==> Printable(n)
  {
    if s != [] {
      assert forall c :: c in s[1..] ==> c in s;
      SplitPrintable(s[1..]);
      var rest := Split(s[1..]);
      assert rest[0] in rest && s[0] in s;
    }
  }

  lemma {:induction false} SolidSubset(parts: seq<Name>)
    ensures forall n :: n in Solid(parts) <==> n in parts && n != []
  {
    if parts != [] { SolidSubset(parts[1..]); }
  }

  /** A target's names are ones a directory could hold, or dots. */
  lemma TargetUsable(t: Bytes)
    ensures Target(t).Some? ==> t != [] && AllUsable(Target(t).value)
  {
    hide Split, Solid, Printable;
    if Target(t).Some? {
      SplitJoin(t);
      SplitPrintable(t);
      SolidSubset(Split(t));
      assert Printable(DOT) by { DotPrintable(); }
    }
  }

  lemma DotPrintable()
    ensures Printable(DOT)
  {
  }

  // ---- The stack is the physical chain ----

  /** Directories from the root down; only the last may be something else, and then it is
      an entry of the directory above it. */
  ghost predicate Physical(g: Shape, stack: seq<Ident>) {
    Chain(g, stack) ||
    (|stack| > 1 && Chain(g, stack[..|stack| - 1]) && Edge(g, stack[|stack| - 2], stack[|stack| - 1]))
  }

  lemma PhysicalChain(g: Shape, stack: seq<Ident>)
    requires Physical(g, stack) && stack != [] && Last(stack) in g.dirs
    ensures ChainTo(g, stack, Last(stack))
  {
    hide Chain, Edge;
    var up := stack[..|stack| - 1];
    assert stack == up + [Last(stack)];
    if |stack| > 1 && Chain(g, up) && Edge(g, stack[|stack| - 2], Last(stack)) { ChainSnoc(g, up, Last(stack)); }
  }

  lemma PushPhysical(g: Shape, stack: seq<Ident>, slot: Slot)
    requires stack != [] && Chain(g, stack) && slot in g.entries && slot.dir == Last(stack)
    ensures Physical(g, stack + [g.entries[slot]])
  {
    hide Chain;
    NewEdge(g, slot, g.entries[slot]);
    var next := stack + [g.entries[slot]];
    assert next[..|next| - 1] == stack;
  }

  lemma RootPhysical(g: Shape, stack: seq<Ident>)
    requires stack != [] && Chain(g, stack)
    ensures Physical(g, stack[..1]) && (|stack| > 1 ==> Physical(g, stack[..|stack| - 1]))
  {
    hide Edge;
    ChainPrefix(g, stack, 1);
    if |stack| > 1 { ChainPrefix(g, stack, |stack| - 1); }
  }

  /** Wherever a walk ends, its stack is the chain of real directories it came down. */
  lemma {:induction false} WalkPhysical(v: View, stack: seq<Ident>, pending: seq<Name>, follows: nat, expanded: nat,
                                        final: bool, create: bool)
    requires v.root.Some? && stack != [] && Physical(ShapeOf(v), stack) && AllUsable(pending)
    ensures var w := Resolve(v, stack, pending, follows, expanded, final, create);
      (w.Found? ==>
        w.stack != [] && Physical(ShapeOf(v), w.stack) &&
        (stack[|stack| - 1] in v.inodes ==> Last(w.stack) in v.inodes)) &&
      (w.Missing? ==> IsDirectory(v, w.slot.dir) && w.slot !in v.entries && ValidName(w.slot.name))
    decreases MAX_FOLLOWS - follows, |pending|
  {
    hide Physical, Chain, ShapeOf, Target, Usable;
    if pending != [] && IsDirectory(v, Last(stack)) {
      var g, name, rest, slot := ShapeOf(v), pending[0], pending[1..], Slot(Last(stack), pending[0]);
      InShape(v, slot.dir);
      PhysicalChain(g, stack);
      RootPhysical(g, stack);
      UsableName(name);
      if name == DOT {
        WalkPhysical(v, stack, rest, follows, expanded, final, create);
      } else if name == DOTDOT {
        var next := if |stack| > 1 then stack[..|stack| - 1] else stack;
        StackKnown(v, stack);
        WalkPhysical(v, next, rest, follows, expanded, final, create);
      } else if slot in v.entries && v.entries[slot] in v.inodes {
        var child := v.entries[slot];
        if v.inodes[child].kind.Symlink? && (final || rest != []) {
          if follows < MAX_FOLLOWS && child in v.contents && Target(v.contents[child]).Some? {
            var target := v.contents[child];
            TargetUsable(target);
            var next := if target[0] == SLASH then stack[..1] else stack;
            StackKnown(v, stack);
            WalkPhysical(v, next, Target(target).value + rest, follows + 1, expanded + |target|, final, create);
          }
        } else {
          PushPhysical(g, stack, slot);
          WalkPhysical(v, stack + [child], rest, follows, expanded, final, create);
        }
      }
    }
  }

  lemma StackKnown(v: View, stack: seq<Ident>)
    requires v.root.Some? && Chain(ShapeOf(v), stack)
    ensures stack[0] in v.inodes && (|stack| > 1 ==> stack[|stack| - 2] in v.inodes)
  {
    hide Edge;
  }

  // ---- The loop ----

  method Walk(v: View, names: seq<Name>, final: bool, create: bool) returns (walked: Walked)
    ensures walked == Resolved(v, names, final, create)
  {
    hide Target;
    if v.root.None? { return Failed; }
    var stack, pending, follows: nat, expanded: nat := [v.root.value], names, 0, 0;
    while pending != []
      invariant stack != [] && follows <= MAX_FOLLOWS
      invariant Resolved(v, names, final, create) == Resolve(v, stack, pending, follows, expanded, final, create)
      decreases MAX_FOLLOWS - follows, |pending|
    {
      var name, id := pending[0], Last(stack);
      pending := pending[1..];
      if !IsDirectory(v, id) { return Failed; }
      if name == DOT { continue; }
      if name == DOTDOT {
        if |stack| > 1 { stack := stack[..|stack| - 1]; }
        continue;
      }
      var slot := Slot(id, name);
      if slot !in v.entries { return if create && pending == [] then Missing(slot) else Failed; }
      var child := v.entries[slot];
      if child !in v.inodes { return Failed; }
      if v.inodes[child].kind.Symlink? && (final || pending != []) {
        if follows == MAX_FOLLOWS || child !in v.contents || |v.contents[child]| != v.inodes[child].size {
          return Failed;
        }
        var target := v.contents[child];
        var parts := ParseTarget(target);
        if parts.None? || expanded + |target| > MAX_EXPANSION { return Failed; }
        TargetUsable(target);
        follows, expanded, pending := follows + 1, expanded + |target|, parts.value + pending;
        if target[0] == SLASH { stack := stack[..1]; }
      } else {
        stack := stack + [child];
      }
    }
    return Found(stack);
  }

  // ---- Plain paths ----

  /** Every name but perhaps the last leads to a directory, and none to a symlink. */
  ghost predicate Plain(v: View, id: Ident, names: seq<Name>)
    decreases |names|
  {
    names == [] ||
    (IsDirectory(v, id) && ValidName(names[0]) && Slot(id, names[0]) in v.entries &&
     v.entries[Slot(id, names[0])] in v.inodes &&
     !IsSymlink(v, v.entries[Slot(id, names[0])]) && Plain(v, v.entries[Slot(id, names[0])], names[1..]))
  }

  ghost function Descend(v: View, id: Ident, names: seq<Name>): Ident
    requires Plain(v, id, names)
    decreases |names|
  {
    if names == [] then id else Descend(v, v.entries[Slot(id, names[0])], names[1..])
  }

  /** Without symlinks a walk is the descent through the entries. */
  lemma {:induction false} WalkPlain(v: View, stack: seq<Ident>, names: seq<Name>, follows: nat, expanded: nat,
                                     final: bool, create: bool)
    requires stack != [] && Plain(v, Last(stack), names)
    ensures var w := Resolve(v, stack, names, follows, expanded, final, create);
      w.Found? && |w.stack| == |stack| + |names| && Last(w.stack) == Descend(v, Last(stack), names)
    decreases |names|
  {
    if names != [] {
      var child := v.entries[Slot(Last(stack), names[0])];
      assert names[0] != DOT && names[0] != DOTDOT;
      WalkPlain(v, stack + [child], names[1..], follows, expanded, final, create);
    }
  }

  /** In any World at all, a free place is an unused name of a directory. */
  lemma {:induction false} MissingFree(v: View, stack: seq<Ident>, pending: seq<Name>, follows: nat, expanded: nat,
                                       final: bool, create: bool)
    requires stack != []
    ensures var w := Resolve(v, stack, pending, follows, expanded, final, create);
      w.Missing? ==> IsDirectory(v, w.slot.dir) && w.slot !in v.entries
    decreases MAX_FOLLOWS - follows, |pending|
  {
    hide Target;
    if pending != [] && IsDirectory(v, Last(stack)) {
      var name, rest, slot := pending[0], pending[1..], Slot(Last(stack), pending[0]);
      if name == DOT {
        MissingFree(v, stack, rest, follows, expanded, final, create);
      } else if name == DOTDOT {
        MissingFree(v, if |stack| > 1 then stack[..|stack| - 1] else stack, rest, follows, expanded, final, create);
      } else if slot in v.entries && v.entries[slot] in v.inodes {
        var child := v.entries[slot];
        if v.inodes[child].kind.Symlink? && (final || rest != []) {
          if follows < MAX_FOLLOWS && child in v.contents && Target(v.contents[child]).Some? {
            var target := v.contents[child];
            TargetUsable(target);
            MissingFree(v, if target[0] == SLASH then stack[..1] else stack, Target(target).value + rest, follows + 1,
                        expanded + |target|, final, create);
          }
        } else {
          MissingFree(v, stack + [child], rest, follows, expanded, final, create);
        }
      }
    }
  }

  // ---- Parents ----

  datatype Place = Place(slot: Slot, ancestry: seq<Ident>)

  /** The entry a path names, with the chain to its directory. */
  ghost function ParentOf(v: View, path: Bytes): Option<Place> {
    var names := Components(path);
    if names.None? || names.value == [] then None
    else
      var n := |names.value| - 1;
      var w := Resolved(v, names.value[..n], true, false);
      if w.Found? && w.stack != [] && IsDirectory(v, Last(w.stack))
      then Some(Place(Slot(Last(w.stack), names.value[n]), w.stack))
      else None
  }

  method Parent(v: View, path: Bytes) returns (place: Option<Place>)
    ensures place == ParentOf(v, path)
  {
    hide Resolved, Components;
    var names := ParsePath(path);
    if names.None? || names.value == [] { return None; }
    var n := |names.value| - 1;
    var w := Walk(v, names.value[..n], true, false);
    if w.Found? && w.stack != [] && IsDirectory(v, Last(w.stack)) {
      return Some(Place(Slot(Last(w.stack), names.value[n]), w.stack));
    }
    return None;
  }

  ghost function Located(v: View, path: Bytes, final: bool, create: bool): Walked {
    var names := Components(path);
    if names.None? then Failed else Resolved(v, names.value, final, create)
  }

  method Locate(v: View, path: Bytes, final: bool, create: bool) returns (walked: Walked)
    ensures walked == Located(v, path, final, create)
  {
    hide Resolved, Components;
    var names := ParsePath(path);
    if names.None? { return Failed; }
    walked := Walk(v, names.value, final, create);
  }

  /** A path's parent is a live directory, its name can be stored, and the ancestry handed
      to rename is that directory's own chain. */
  lemma ParentChain(v: View, path: Bytes)
    requires Verified(v) && ParentOf(v, path).Some?
    ensures var p := ParentOf(v, path).value;
      IsDirectory(v, p.slot.dir) && ValidName(p.slot.name) && ChainTo(ShapeOf(v), p.ancestry, p.slot.dir)
  {
    hide Resolve, Tree, Local, Counted, ShapeOf, Split;
    var names := Components(path).value;
    StartPhysical(v);
    AllValid(path);
    assert forall n :: n in names[..|names| - 1] ==> n in names;
    WalkPhysical(v, [v.root.value], names[..|names| - 1], 0, 0, true, false);
    var stack := Resolved(v, names[..|names| - 1], true, false).stack;
    InShape(v, Last(stack));
    PhysicalChain(ShapeOf(v), stack);
  }

  lemma StartPhysical(v: View)
    requires Verified(v)
    ensures Physical(ShapeOf(v), [v.root.value]) && v.root.value in v.inodes
  {
    hide Local, Counted, AllReached;
    assert Chain(ShapeOf(v), [v.root.value]);
  }

  lemma AllValid(path: Bytes)
    ensures Components(path).Some? ==>
      AllUsable(Components(path).value) && forall n :: n in Components(path).value ==> ValidName(n)
  {
    hide Split, Printable;
  }

  /** What a lookup finds is a live inode; a free place it reports can take a new entry. */
  lemma LocatedLive(v: View, path: Bytes, final: bool, create: bool)
    requires Verified(v)
    ensures var w := Located(v, path, final, create);
      (w.Found? ==> w.stack != [] && Last(w.stack) in v.inodes) &&
      (w.Missing? ==> IsDirectory(v, w.slot.dir) && w.slot !in v.entries && ValidName(w.slot.name))
  {
    hide Resolve, Tree, Local, Counted, ShapeOf, Components;
    if Components(path).Some? {
      StartPhysical(v);
      AllValid(path);
      WalkPhysical(v, [v.root.value], Components(path).value, 0, 0, final, create);
    }
  }
}
