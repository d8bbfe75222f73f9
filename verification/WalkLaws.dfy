/** Laws of path walking, stated on whole paths from the root (daemon/namespace.cpp, walk).
    Together they say where every path leads. */
module WalkLaws {
  import opened Bytes
  import opened Paths
  import opened DirectoryTree
  import opened Namespace
  import opened Walk

  /** Walking a path from the root with some symlinks and target bytes already spent. */
  ghost function From(v: View, names: seq<Name>, follows: nat, expanded: nat, final: bool, create: bool): Walked {
    if v.root.None? then Failed else Resolve(v, [v.root.value], names, follows, expanded, final, create)
  }

  // ---- Plain prefixes ----

  /** The inodes a plain path passes through, from the first name on. */
  ghost function Passed(v: View, id: Ident, names: seq<Name>): seq<Ident>
    requires Plain(v, id, names)
    decreases |names|
  {
    if names == [] then []
    else [v.entries[Slot(id, names[0])]] + Passed(v, v.entries[Slot(id, names[0])], names[1..])
  }

  lemma {:induction false} PassedEnds(v: View, id: Ident, names: seq<Name>)
    requires Plain(v, id, names)
    ensures |Passed(v, id, names)| == |names| && Last([id] + Passed(v, id, names)) == Descend(v, id, names)
    decreases |names|
  {
    if names != [] {
      var child := v.entries[Slot(id, names[0])];
      PassedEnds(v, child, names[1..]);
      assert [id] + Passed(v, id, names) == [id] + ([child] + Passed(v, child, names[1..]));
      assert Last([child] + Passed(v, child, names[1..])) == Last([id] + ([child] + Passed(v, child, names[1..])));
    }
  }

  /** A plain prefix is a descent, whatever follows. */
  lemma {:induction false} Prefix(v: View, stack: seq<Ident>, dir: seq<Name>, rest: seq<Name>, follows: nat,
                                  expanded: nat, final: bool, create: bool)
    requires stack != [] && Plain(v, Last(stack), dir)
    ensures Resolve(v, stack, dir + rest, follows, expanded, final, create) ==
      Resolve(v, stack + Passed(v, Last(stack), dir), rest, follows, expanded, final, create)
    decreases |dir|
  {
    hide Target;
    if dir == [] {
      assert dir + rest == rest && stack + [] == stack;
    } else {
      var child := v.entries[Slot(Last(stack), dir[0])];
      assert (dir + rest)[0] == dir[0] && (dir + rest)[1..] == dir[1..] + rest;
      assert dir[0] != DOT && dir[0] != DOTDOT;
      Prefix(v, stack + [child], dir[1..], rest, follows, expanded, final, create);
      assert stack + [child] + Passed(v, child, dir[1..]) == stack + Passed(v, Last(stack), dir);
    }
  }

  /** The path leads to a directory without meeting a symlink. */
  ghost predicate LeadsTo(v: View, dir: seq<Name>, d: Ident) {
    v.root.Some? && Plain(v, v.root.value, dir) && Descend(v, v.root.value, dir) == d && IsDirectory(v, d)
  }

  lemma FromPrefix(v: View, dir: seq<Name>, d: Ident, rest: seq<Name>, follows: nat, expanded: nat, final: bool,
                   create: bool)
    returns (stack: seq<Ident>)
    requires LeadsTo(v, dir, d)
    ensures stack != [] && stack[0] == v.root.value && Last(stack) == d && |stack| == 1 + |dir|
    ensures stack == [v.root.value] + Passed(v, v.root.value, dir)
    ensures From(v, dir + rest, follows, expanded, final, create) ==
      Resolve(v, stack, rest, follows, expanded, final, create)
  {
    hide Resolve, Plain, Passed, Descend;
    PassedEnds(v, v.root.value, dir);
    Prefix(v, [v.root.value], dir, rest, follows, expanded, final, create);
    stack := [v.root.value] + Passed(v, v.root.value, dir);
  }

  // ---- Symlinks ----

  /** A readable symlink is at this name. */
  ghost predicate LinkAt(v: View, d: Ident, l: Name, target: Bytes) {
    ValidName(l) && Slot(d, l) in v.entries && IsSymlink(v, v.entries[Slot(d, l)]) &&
    v.entries[Slot(d, l)] in v.contents && v.contents[v.entries[Slot(d, l)]] == target &&
    v.inodes[v.entries[Slot(d, l)]].size == |target| && Target(target).Some?
  }

  /** What a symlink stands for on a path: its names from the root, or from where it is. */
  ghost function Standing(dir: seq<Name>, target: Bytes): seq<Name>
    requires Target(target).Some?
  {
    if StartsWith(target, [SLASH]) then Target(target).value else dir + Target(target).value
  }

  /** A path through a symlink is the path with the symlink written out: from the root if
      its target is absolute, else from its own directory. It costs one follow and the
      target's bytes, and fails exactly when one of them runs out. */
  lemma ThroughLink(v: View, dir: seq<Name>, d: Ident, l: Name, target: Bytes, rest: seq<Name>, follows: nat,
                    expanded: nat, final: bool, create: bool)
    requires LeadsTo(v, dir, d) && LinkAt(v, d, l, target) && (final || rest != [])
    ensures From(v, dir + [l] + rest, follows, expanded, final, create) ==
      if follows >= MAX_FOLLOWS || expanded + |target| > MAX_EXPANSION then Failed
      else From(v, Standing(dir, target) + rest, follows + 1, expanded + |target|, final, create)
  {
    hide Target, Plain, Descend, Passed;
    TargetUsable(target);
    var parts := Target(target).value;
    assert dir + [l] + rest == dir + ([l] + rest);
    assert ([l] + rest)[0] == l && ([l] + rest)[1..] == rest;
    var stack := FromPrefix(v, dir, d, [l] + rest, follows, expanded, final, create);
    OneLink(v, stack, l, target, rest, follows, expanded, final, create);
    if follows < MAX_FOLLOWS && expanded + |target| <= MAX_EXPANSION {
      if target[0] == SLASH {
        assert target[..1] == [SLASH] && stack[..1] == [v.root.value];
      } else {
        assert dir + parts + rest == dir + (parts + rest);
        var again := FromPrefix(v, dir, d, parts + rest, follows + 1, expanded + |target|, final, create);
      }
    }
  }

  lemma OneLink(v: View, stack: seq<Ident>, l: Name, target: Bytes, rest: seq<Name>, follows: nat, expanded: nat,
                final: bool, create: bool)
    requires stack != [] && IsDirectory(v, Last(stack)) && LinkAt(v, Last(stack), l, target) && (final || rest != [])
    requires target != []
    ensures Resolve(v, stack, [l] + rest, follows, expanded, final, create) ==
      if follows >= MAX_FOLLOWS || expanded + |target| > MAX_EXPANSION then Failed
      else Resolve(v, if target[0] == SLASH then stack[..1] else stack, Target(target).value + rest, follows + 1,
                   expanded + |target|, final, create)
  {
    hide Target;
    var all := [l] + rest;
    assert all[0] == l && all[1..] == rest && l != DOT && l != DOTDOT;
  }

  /** Having spent less never changes where a walk ends, unless the walk ran out. */
  lemma {:induction false} Slack(v: View, stack: seq<Ident>, pending: seq<Name>, follows: nat, expanded: nat,
                                 follows': nat, expanded': nat, final: bool, create: bool)
    requires stack != [] && follows <= follows' && expanded <= expanded'
    ensures var less, more := Resolve(v, stack, pending, follows, expanded, final, create),
                              Resolve(v, stack, pending, follows', expanded', final, create);
      more.Failed? || more == less
    decreases MAX_FOLLOWS - follows', |pending|
  {
    hide Target;
    if pending != [] && IsDirectory(v, Last(stack)) {
      var name, rest, slot := pending[0], pending[1..], Slot(Last(stack), pending[0]);
      if name == DOT {
        Slack(v, stack, rest, follows, expanded, follows', expanded', final, create);
      } else if name == DOTDOT {
        var up := if |stack| > 1 then stack[..|stack| - 1] else stack;
        Slack(v, up, rest, follows, expanded, follows', expanded', final, create);
      } else if slot in v.entries && v.entries[slot] in v.inodes {
        var child := v.entries[slot];
        if v.inodes[child].kind.Symlink? && (final || rest != []) {
          if follows' < MAX_FOLLOWS && child in v.contents && Target(v.contents[child]).Some? {
            var target := v.contents[child];
            TargetUsable(target);
            var start := if target[0] == SLASH then stack[..1] else stack;
            Slack(v, start, Target(target).value + rest, follows + 1, expanded + |target|, follows' + 1,
                  expanded' + |target|, final, create);
          }
        } else {
          Slack(v, stack + [child], rest, follows, expanded, follows', expanded', final, create);
        }
      }
    }
  }

  /** Unless a limit stops it, a path through a symlink ends where the written-out path ends. */
  lemma LinkEnds(v: View, dir: seq<Name>, d: Ident, l: Name, target: Bytes, rest: seq<Name>, final: bool, create: bool)
    requires LeadsTo(v, dir, d) && LinkAt(v, d, l, target) && (final || rest != [])
    ensures var through := Resolved(v, dir + [l] + rest, final, create);
      through.Failed? || through == Resolved(v, Standing(dir, target) + rest, final, create)
  {
    hide Resolve, LeadsTo, LinkAt, Target, Standing;
    assert v.root.Some? && Target(target).Some? by { LinkParts(v, dir, d, l, target); }
    ThroughLink(v, dir, d, l, target, rest, 0, 0, final, create);
    Slack(v, [v.root.value], Standing(dir, target) + rest, 0, 0, 1, |target|, final, create);
  }

  lemma LinkParts(v: View, dir: seq<Name>, d: Ident, l: Name, target: Bytes)
    requires LeadsTo(v, dir, d) && LinkAt(v, d, l, target)
    ensures v.root.Some? && Target(target).Some?
  {
    hide Plain, Descend, Target;
  }

  /** A final symlink that is not followed is itself the end. */
  lemma LinkItself(v: View, dir: seq<Name>, d: Ident, l: Name, follows: nat, expanded: nat, create: bool)
    requires LeadsTo(v, dir, d) && ValidName(l) && Slot(d, l) in v.entries && v.entries[Slot(d, l)] in v.inodes
    ensures var w := From(v, dir + [l], follows, expanded, false, create);
      w.Found? && w.stack != [] && Last(w.stack) == v.entries[Slot(d, l)]
  {
    hide Target, Plain, Descend, Passed;
    var stack := FromPrefix(v, dir, d, [l], follows, expanded, false, create);
    assert [l][1..] == [];
    assert l != DOT && l != DOTDOT;
  }

  // ---- Dots, free names and files on the way ----

  /** Going down into a directory and up again is staying. */
  lemma DownAndUp(v: View, dir: seq<Name>, d: Ident, x: Name, rest: seq<Name>, follows: nat, expanded: nat, final: bool,
                  create: bool)
    requires LeadsTo(v, dir, d) && ValidName(x) && Slot(d, x) in v.entries && IsDirectory(v, v.entries[Slot(d, x)])
    ensures From(v, dir + [x, DOTDOT] + rest, follows, expanded, final, create) ==
      From(v, dir + rest, follows, expanded, final, create)
  {
    hide Target, Plain, Descend, Passed;
    var child := v.entries[Slot(d, x)];
    assert dir + [x, DOTDOT] + rest == dir + ([x] + ([DOTDOT] + rest));
    var stack := FromPrefix(v, dir, d, [x] + ([DOTDOT] + rest), follows, expanded, final, create);
    var same := FromPrefix(v, dir, d, rest, follows, expanded, final, create);
    OneDown(v, stack, x, [DOTDOT] + rest, follows, expanded, final, create);
    OneUp(v, stack + [child], rest, follows, expanded, final, create);
    assert (stack + [child])[..|stack|] == stack;
  }

  lemma OneDown(v: View, stack: seq<Ident>, x: Name, rest: seq<Name>, follows: nat, expanded: nat, final: bool,
                create: bool)
    requires stack != [] && IsDirectory(v, Last(stack)) && ValidName(x) && Slot(Last(stack), x) in v.entries
    requires IsDirectory(v, v.entries[Slot(Last(stack), x)])
    ensures Resolve(v, stack, [x] + rest, follows, expanded, final, create) ==
      Resolve(v, stack + [v.entries[Slot(Last(stack), x)]], rest, follows, expanded, final, create)
  {
    hide Target;
    var all := [x] + rest;
    assert all[0] == x && all[1..] == rest && x != DOT && x != DOTDOT;
  }

  lemma OneUp(v: View, stack: seq<Ident>, rest: seq<Name>, follows: nat, expanded: nat, final: bool, create: bool)
    requires stack != [] && IsDirectory(v, Last(stack))
    ensures Resolve(v, stack, [DOTDOT] + rest, follows, expanded, final, create) ==
      Resolve(v, if |stack| > 1 then stack[..|stack| - 1] else stack, rest, follows, expanded, final, create)
  {
    hide Target;
    var all := [DOTDOT] + rest;
    assert all[0] == DOTDOT && all[1..] == rest && DOTDOT != DOT;
  }

  /** Above the root is the root. */
  lemma RootUp(v: View, rest: seq<Name>, follows: nat, expanded: nat, final: bool, create: bool)
    requires v.root.Some? && IsDirectory(v, v.root.value)
    ensures From(v, [DOTDOT] + rest, follows, expanded, final, create) ==
      From(v, rest, follows, expanded, final, create)
  {
    hide Resolve;
    OneUp(v, [v.root.value], rest, follows, expanded, final, create);
  }

  lemma DotStays(v: View, dir: seq<Name>, d: Ident, rest: seq<Name>, follows: nat, expanded: nat, final: bool,
                 create: bool)
    requires LeadsTo(v, dir, d)
    ensures From(v, dir + [DOT] + rest, follows, expanded, final, create) ==
      From(v, dir + rest, follows, expanded, final, create)
  {
    hide Target, Plain, Descend, Passed;
    var all := [DOT] + rest;
    assert dir + [DOT] + rest == dir + all;
    assert all[0] == DOT && all[1..] == rest;
    var stack := FromPrefix(v, dir, d, all, follows, expanded, final, create);
    var same := FromPrefix(v, dir, d, rest, follows, expanded, final, create);
  }

  /** A name that is not there ends the walk: at a free place if it is the last and one is
      wanted, else nowhere. */
  lemma FreeName(v: View, dir: seq<Name>, d: Ident, x: Name, rest: seq<Name>, follows: nat, expanded: nat, final: bool,
                 create: bool)
    requires LeadsTo(v, dir, d) && ValidName(x) && Slot(d, x) !in v.entries
    ensures From(v, dir + [x] + rest, follows, expanded, final, create) ==
      if create && rest == [] then Missing(Slot(d, x)) else Failed
  {
    hide Target, Plain, Descend, Passed;
    var all := [x] + rest;
    assert dir + [x] + rest == dir + all;
    assert all[0] == x && all[1..] == rest && x != DOT && x != DOTDOT;
    var stack := FromPrefix(v, dir, d, all, follows, expanded, final, create);
  }

  /** Nothing is below a file. */
  lemma FileEnds(v: View, names: seq<Name>, rest: seq<Name>, follows: nat, expanded: nat, final: bool, create: bool)
    requires v.root.Some? && Plain(v, v.root.value, names) && !IsDirectory(v, Descend(v, v.root.value, names))
    ensures var w := From(v, names + rest, follows, expanded, final, create);
      if rest != [] then w.Failed? else w.Found? && w.stack != [] && Last(w.stack) == Descend(v, v.root.value, names)
  {
    hide Target, Plain, Descend, Passed;
    PassedEnds(v, v.root.value, names);
    Prefix(v, [v.root.value], names, rest, follows, expanded, final, create);
  }

  // ---- Walks in two views ----

  /** Directories, symlinks and the entries that lead to them are in the second view too. */
  ghost predicate KeepsTree(v: View, v': View) {
    v'.root == v.root &&
    (forall id :: id in v.inodes && !v.inodes[id].kind.Regular? ==>
      id in v'.inodes && v'.inodes[id].kind == v.inodes[id].kind) &&
    (forall s :: s in v.entries && v.entries[s] in v.inodes && !v.inodes[v.entries[s]].kind.Regular? ==>
      s in v'.entries && v'.entries[s] == v.entries[s]) &&
    (forall id :: IsSymlink(v, id) && id in v.contents ==>
      id in v'.contents && v'.contents[id] == v.contents[id] && v'.inodes[id].size == v.inodes[id].size)
  }

  /** So are the files. */
  ghost predicate KeepsAll(v: View, v': View) {
    KeepsTree(v, v') && (forall id :: id in v.inodes ==> id in v'.inodes && v'.inodes[id].kind == v.inodes[id].kind) &&
    (forall s :: s in v.entries ==> s in v'.entries && v'.entries[s] == v.entries[s])
  }

  /** A walk that ends at a directory ends there wherever the tree is kept; one that ends
      at a file, wherever the files are kept too. */
  lemma {:induction false} Kept(v: View, v': View, stack: seq<Ident>, pending: seq<Name>, follows: nat, expanded: nat,
                                final: bool, create: bool)
    requires KeepsTree(v, v') && stack != []
    ensures var w, w' := Resolve(v, stack, pending, follows, expanded, final, create),
                         Resolve(v', stack, pending, follows, expanded, final, create);
      w.Found? && w.stack != [] && (IsDirectory(v, Last(w.stack)) || KeepsAll(v, v')) ==> w' == w
    decreases MAX_FOLLOWS - follows, |pending|
  {
    hide Target, KeepsAll, KeepsTree;
    if pending != [] && IsDirectory(v, Last(stack)) {
      var name, rest, slot := pending[0], pending[1..], Slot(Last(stack), pending[0]);
      KeepsDirectory(v, v', slot.dir);
      if name == DOT {
        Kept(v, v', stack, rest, follows, expanded, final, create);
      } else if name == DOTDOT {
        var up := if |stack| > 1 then stack[..|stack| - 1] else stack;
        Kept(v, v', up, rest, follows, expanded, final, create);
      } else if slot in v.entries && v.entries[slot] in v.inodes {
        KeepsChild(v, v', slot);
        var child := v.entries[slot];
        if v.inodes[child].kind.Symlink? && (final || rest != []) {
          if follows < MAX_FOLLOWS && child in v.contents && Target(v.contents[child]).Some? {
            var target := v.contents[child];
            TargetUsable(target);
            var start := if target[0] == SLASH then stack[..1] else stack;
            Kept(v, v', start, Target(target).value + rest, follows + 1, expanded + |target|, final, create);
          }
        } else {
          Kept(v, v', stack + [child], rest, follows, expanded, final, create);
          if v.inodes[child].kind.Regular? { Below(v, stack + [child], rest, follows, expanded, final, create); }
        }
      }
    }
  }

  lemma KeepsDirectory(v: View, v': View, id: Ident)
    requires KeepsTree(v, v') && IsDirectory(v, id)
    ensures IsDirectory(v', id)
  {
  }

  lemma KeepsChild(v: View, v': View, slot: Slot)
    requires KeepsTree(v, v') && slot in v.entries && v.entries[slot] in v.inodes
    ensures
      var child := v.entries[slot];
      !v.inodes[child].kind.Regular? || KeepsAll(v, v') ==>
        slot in v'.entries && v'.entries[slot] == child &&
        child in v'.inodes && v'.inodes[child].kind == v.inodes[child].kind
    ensures
      var child := v.entries[slot];
      v.inodes[child].kind.Symlink? && child in v.contents ==>
        child in v'.contents && v'.contents[child] == v.contents[child] && v'.inodes[child].size == v.inodes[child].size
  {
  }

  /** From a file a walk stays there or fails. */
  lemma Below(v: View, stack: seq<Ident>, pending: seq<Name>, follows: nat, expanded: nat, final: bool, create: bool)
    requires stack != [] && !IsDirectory(v, Last(stack))
    ensures var w := Resolve(v, stack, pending, follows, expanded, final, create); w.Failed? || w == Found(stack)
  {
  }

  /** The free place a walk found, filled, is where the walk then ends. */
  lemma {:induction false} Filled(v: View, v': View, slot: Slot, stack: seq<Ident>, pending: seq<Name>, follows: nat,
                                  expanded: nat, final: bool, create: bool)
    requires KeepsTree(v, v') && stack != [] && slot in v'.entries && v'.entries[slot] in v'.inodes
    requires Resolve(v, stack, pending, follows, expanded, final, true) == Missing(slot)
    requires final ==> !IsSymlink(v', v'.entries[slot])
    ensures var w := Resolve(v', stack, pending, follows, expanded, final, create);
      w.Found? && w.stack != [] && Last(w.stack) == v'.entries[slot]
    decreases MAX_FOLLOWS - follows, |pending|
  {
    hide Target, KeepsTree;
    var name, rest, here := pending[0], pending[1..], Slot(Last(stack), pending[0]);
    KeepsDirectory(v, v', here.dir);
    if name == DOT {
      Filled(v, v', slot, stack, rest, follows, expanded, final, create);
    } else if name == DOTDOT {
      var up := if |stack| > 1 then stack[..|stack| - 1] else stack;
      Filled(v, v', slot, up, rest, follows, expanded, final, create);
    } else if here in v.entries {
      KeepsChild(v, v', here);
      var child := v.entries[here];
      if v.inodes[child].kind.Symlink? && (final || rest != []) {
        var target := v.contents[child];
        TargetUsable(target);
        var start := if target[0] == SLASH then stack[..1] else stack;
        Filled(v, v', slot, start, Target(target).value + rest, follows + 1, expanded + |target|, final, create);
      } else {
        if !IsDirectory(v, child) { Below(v, stack + [child], rest, follows, expanded, final, true); }
        Filled(v, v', slot, stack + [child], rest, follows, expanded, final, create);
      }
    }
  }

  /** Asking for a free place changes nothing but the answer when there is one. */
  lemma {:induction false} CreateOnly(v: View, stack: seq<Ident>, pending: seq<Name>, follows: nat, expanded: nat,
                                      final: bool)
    requires stack != []
    ensures var asked, plain := Resolve(v, stack, pending, follows, expanded, final, true),
                                Resolve(v, stack, pending, follows, expanded, final, false);
      plain == if asked.Missing? then Failed else asked
    decreases MAX_FOLLOWS - follows, |pending|
  {
    hide Target;
    if pending != [] && IsDirectory(v, Last(stack)) {
      var name, rest, slot := pending[0], pending[1..], Slot(Last(stack), pending[0]);
      if name == DOT {
        CreateOnly(v, stack, rest, follows, expanded, final);
      } else if name == DOTDOT {
        CreateOnly(v, if |stack| > 1 then stack[..|stack| - 1] else stack, rest, follows, expanded, final);
      } else if slot in v.entries && v.entries[slot] in v.inodes {
        var child := v.entries[slot];
        if v.inodes[child].kind.Symlink? && (final || rest != []) {
          if follows < MAX_FOLLOWS && child in v.contents && Target(v.contents[child]).Some? {
            var target := v.contents[child];
            TargetUsable(target);
            var start := if target[0] == SLASH then stack[..1] else stack;
            CreateOnly(v, start, Target(target).value + rest, follows + 1, expanded + |target|, final);
          }
        } else {
          CreateOnly(v, stack + [child], rest, follows, expanded, final);
        }
      }
    }
  }

  /** A path that leads anywhere has a parent that is a directory. */
  lemma {:induction false} Front(v: View, stack: seq<Ident>, a: seq<Name>, x: Name, follows: nat, expanded: nat,
                                 final: bool, create: bool)
    requires stack != [] && !Resolve(v, stack, a + [x], follows, expanded, final, create).Failed?
    ensures var w := Resolve(v, stack, a, follows, expanded, true, false);
      w.Found? && w.stack != [] && IsDirectory(v, Last(w.stack))
    decreases MAX_FOLLOWS - follows, |a|
  {
    hide Target;
    if a == [] {
      assert a + [x] == [x];
    } else {
      var name, rest, slot := a[0], a[1..], Slot(Last(stack), a[0]);
      assert (a + [x])[0] == name && (a + [x])[1..] == rest + [x];
      if name == DOT {
        Front(v, stack, rest, x, follows, expanded, final, create);
      } else if name == DOTDOT {
        Front(v, if |stack| > 1 then stack[..|stack| - 1] else stack, rest, x, follows, expanded, final, create);
      } else {
        var child := v.entries[slot];
        if v.inodes[child].kind.Symlink? {
          var target := v.contents[child];
          TargetUsable(target);
          var parts := Target(target).value;
          assert parts + (rest + [x]) == parts + rest + [x];
          var start := if target[0] == SLASH then stack[..1] else stack;
          Front(v, start, parts + rest, x, follows + 1, expanded + |target|, final, create);
        } else {
          Front(v, stack + [child], rest, x, follows, expanded, final, create);
        }
      }
    }
  }

  /** Nothing is in the second view that is not in the first. */
  ghost predicate Shrinks(v: View, v': View) {
    v'.root == v.root &&
    (forall id :: id in v'.inodes ==> id in v.inodes && v'.inodes[id].kind == v.inodes[id].kind) &&
    (forall s :: s in v'.entries ==> s in v.entries && v'.entries[s] == v.entries[s]) &&
    (forall id :: IsSymlink(v', id) && id in v'.contents ==>
      id in v.contents && v'.contents[id] == v.contents[id] && v'.inodes[id].size == v.inodes[id].size)
  }

  /** In a smaller view a walk ends where it did, or fails. */
  lemma {:induction false} Shrunk(v: View, v': View, stack: seq<Ident>, pending: seq<Name>, follows: nat,
                                  expanded: nat, final: bool)
    requires Shrinks(v, v') && stack != []
    ensures var w, w' := Resolve(v, stack, pending, follows, expanded, final, false),
                         Resolve(v', stack, pending, follows, expanded, final, false);
      w'.Failed? || w' == w
    decreases MAX_FOLLOWS - follows, |pending|
  {
    hide Target, Shrinks;
    if pending != [] && IsDirectory(v', Last(stack)) {
      var name, rest, slot := pending[0], pending[1..], Slot(Last(stack), pending[0]);
      ShrinksStep(v, v', slot);
      if name == DOT {
        Shrunk(v, v', stack, rest, follows, expanded, final);
      } else if name == DOTDOT {
        Shrunk(v, v', if |stack| > 1 then stack[..|stack| - 1] else stack, rest, follows, expanded, final);
      } else if slot in v'.entries && v'.entries[slot] in v'.inodes {
        var child := v'.entries[slot];
        if v'.inodes[child].kind.Symlink? && (final || rest != []) {
          if follows < MAX_FOLLOWS && child in v'.contents && Target(v'.contents[child]).Some? {
            var target := v'.contents[child];
            TargetUsable(target);
            var start := if target[0] == SLASH then stack[..1] else stack;
            Shrunk(v, v', start, Target(target).value + rest, follows + 1, expanded + |target|, final);
          }
        } else {
          Shrunk(v, v', stack + [child], rest, follows, expanded, final);
        }
      }
    }
  }

  lemma ShrinksStep(v: View, v': View, slot: Slot)
    requires Shrinks(v, v') && IsDirectory(v', slot.dir)
    ensures IsDirectory(v, slot.dir)
    ensures slot in v'.entries ==> slot in v.entries && v'.entries[slot] == v.entries[slot]
    ensures slot in v'.entries && v'.entries[slot] in v'.inodes ==>
      var child := v'.entries[slot];
      child in v.inodes && v'.inodes[child].kind == v.inodes[child].kind &&
      (v'.inodes[child].kind.Symlink? && child in v'.contents ==>
        child in v.contents && v'.contents[child] == v.contents[child] && v'.inodes[child].size == v.inodes[child].size)
  {
  }

  // ---- A path and its parent ----

  /** Walking a path is walking its front and then the rest from where that ended. */
  lemma {:induction false} WalkOn(v: View, stack: seq<Ident>, a: seq<Name>, b: seq<Name>, follows: nat, expanded: nat,
                                  final: bool, create: bool)
    returns (follows': nat, expanded': nat)
    requires stack != [] && b != [] && Resolve(v, stack, a, follows, expanded, true, false).Found?
    ensures Resolve(v, stack, a, follows, expanded, true, false).stack != []
    ensures Resolve(v, stack, a + b, follows, expanded, final, create) ==
            Resolve(v, Resolve(v, stack, a, follows, expanded, true, false).stack, b,
                    follows', expanded', final, create)
    decreases MAX_FOLLOWS - follows, |a|
  {
    hide Target;
    if a == [] {
      assert a + b == b;
      return follows, expanded;
    }
    var name, rest, slot := a[0], a[1..], Slot(Last(stack), a[0]);
    assert (a + b)[0] == name && (a + b)[1..] == rest + b;
    if name == DOT {
      follows', expanded' := WalkOn(v, stack, rest, b, follows, expanded, final, create);
    } else if name == DOTDOT {
      var up := if |stack| > 1 then stack[..|stack| - 1] else stack;
      follows', expanded' := WalkOn(v, up, rest, b, follows, expanded, final, create);
    } else {
      var child := v.entries[slot];
      if v.inodes[child].kind.Symlink? {
        var target := v.contents[child];
        TargetUsable(target);
        var parts := Target(target).value;
        assert parts + (rest + b) == parts + rest + b;
        var start := if target[0] == SLASH then stack[..1] else stack;
        follows', expanded' := WalkOn(v, start, parts + rest, b, follows + 1, expanded + |target|, final, create);
      } else {
        follows', expanded' := WalkOn(v, stack + [child], rest, b, follows, expanded, final, create);
      }
    }
  }

  lemma ValidLast(v: View, path: Bytes)
    requires Components(path).Some? && Components(path).value != []
    ensures ValidName(Components(path).value[|Components(path).value| - 1])
  {
    AllValid(path);
  }

  lemma LastStep(v: View, stack: seq<Ident>, name: Name, follows: nat, expanded: nat, final: bool, create: bool)
    requires stack != [] && IsDirectory(v, Last(stack)) && ValidName(name)
    ensures var w, slot := Resolve(v, stack, [name], follows, expanded, final, create), Slot(Last(stack), name);
      if slot !in v.entries then w == if create then Missing(slot) else Failed
      else if v.entries[slot] !in v.inodes then w == Failed
      else !(final && IsSymlink(v, v.entries[slot])) ==> w == Found(stack + [v.entries[slot]])
  {
    hide Target;
    assert [name][1..] == [];
    assert name != DOT && name != DOTDOT;
  }

  /** A path leads to the entry its parent lookup names, unless a symlink there is followed. */
  lemma LocatedEntry(v: View, path: Bytes, final: bool, create: bool)
    requires ParentOf(v, path).Some?
    ensures var w, slot := Located(v, path, final, create), ParentOf(v, path).value.slot;
      if slot !in v.entries then w == if create then Missing(slot) else Failed
      else if v.entries[slot] !in v.inodes then w == Failed
      else !(final && IsSymlink(v, v.entries[slot])) ==>
        w.Found? && w.stack != [] && Last(w.stack) == v.entries[slot]
  {
    hide Resolve, Components;
    var names, p := Components(path).value, ParentOf(v, path).value;
    var n := |names| - 1;
    ValidLast(v, path);
    assert names == names[..n] + [names[n]];
    var f, e := WalkOn(v, [v.root.value], names[..n], [names[n]], 0, 0, final, create);
    LastStep(v, p.ancestry, names[n], f, e, final, create);
  }

  /** A path other than the root that leads anywhere has a parent. */
  lemma LocatedParent(v: View, path: Bytes, final: bool, create: bool)
    requires Components(path).Some? && Components(path).value != [] && !Located(v, path, final, create).Failed?
    ensures ParentOf(v, path).Some?
  {
    hide Resolve, Components;
    var names := Components(path).value;
    var n := |names| - 1;
    assert names == names[..n] + [names[n]];
    Front(v, [v.root.value], names[..n], names[n], 0, 0, final, create);
  }

  /** Where the tree is kept, so are parents. */
  lemma ParentKept(v: View, v': View, path: Bytes)
    requires KeepsTree(v, v') && ParentOf(v, path).Some?
    ensures ParentOf(v', path) == ParentOf(v, path)
  {
    hide Resolve, Components, KeepsTree;
    var names := Components(path).value;
    var n := |names| - 1;
    assert v'.root == v.root by { KeepsRoot(v, v'); }
    Kept(v, v', [v.root.value], names[..n], 0, 0, true, false);
    KeepsDirectory(v, v', ParentOf(v, path).value.slot.dir);
  }

  lemma KeepsRoot(v: View, v': View)
    requires KeepsTree(v, v')
    ensures v'.root == v.root
  {
  }

  lemma LocatedKept(v: View, v': View, path: Bytes, final: bool, create: bool)
    requires KeepsAll(v, v') && Located(v, path, final, create).Found?
    ensures Located(v', path, final, create) == Located(v, path, final, create)
  {
    hide Resolve, Components;
    FoundStack(v, [v.root.value], Components(path).value, 0, 0, final, create);
    Kept(v, v', [v.root.value], Components(path).value, 0, 0, final, create);
  }

  lemma {:induction false} FoundStack(v: View, stack: seq<Ident>, pending: seq<Name>, follows: nat, expanded: nat,
                                      final: bool, create: bool)
    requires stack != []
    ensures var w := Resolve(v, stack, pending, follows, expanded, final, create); w.Found? ==> w.stack != []
    decreases MAX_FOLLOWS - follows, |pending|
  {
    hide Target;
    if pending != [] && IsDirectory(v, Last(stack)) {
      var name, rest, slot := pending[0], pending[1..], Slot(Last(stack), pending[0]);
      if name == DOT {
        FoundStack(v, stack, rest, follows, expanded, final, create);
      } else if name == DOTDOT {
        FoundStack(v, if |stack| > 1 then stack[..|stack| - 1] else stack, rest, follows, expanded, final, create);
      } else if slot in v.entries && v.entries[slot] in v.inodes {
        var child := v.entries[slot];
        if v.inodes[child].kind.Symlink? && (final || rest != []) {
          if follows < MAX_FOLLOWS && child in v.contents && Target(v.contents[child]).Some? {
            var target := v.contents[child];
            TargetUsable(target);
            var start := if target[0] == SLASH then stack[..1] else stack;
            FoundStack(v, start, Target(target).value + rest, follows + 1, expanded + |target|, final, create);
          }
        } else {
          FoundStack(v, stack + [child], rest, follows, expanded, final, create);
        }
      }
    }
  }

  /** A walk that need not follow its last name and does not end on a symlink ends where
      the following one does. */
  lemma {:induction false} FinalOnly(v: View, stack: seq<Ident>, pending: seq<Name>, follows: nat, expanded: nat,
                                     create: bool)
    requires stack != []
    ensures var w := Resolve(v, stack, pending, follows, expanded, false, create);
      w.Found? && w.stack != [] && !IsSymlink(v, Last(w.stack)) ==>
        Resolve(v, stack, pending, follows, expanded, true, create) == w
    decreases MAX_FOLLOWS - follows, |pending|
  {
    hide Target;
    if pending != [] && IsDirectory(v, Last(stack)) {
      var name, rest, slot := pending[0], pending[1..], Slot(Last(stack), pending[0]);
      if name == DOT {
        FinalOnly(v, stack, rest, follows, expanded, create);
      } else if name == DOTDOT {
        FinalOnly(v, if |stack| > 1 then stack[..|stack| - 1] else stack, rest, follows, expanded, create);
      } else if slot in v.entries && v.entries[slot] in v.inodes {
        var child := v.entries[slot];
        if v.inodes[child].kind.Symlink? && rest != [] {
          if follows < MAX_FOLLOWS && child in v.contents && Target(v.contents[child]).Some? {
            var target := v.contents[child];
            TargetUsable(target);
            var start := if target[0] == SLASH then stack[..1] else stack;
            FinalOnly(v, start, Target(target).value + rest, follows + 1, expanded + |target|, create);
          }
        } else {
          FinalOnly(v, stack + [child], rest, follows, expanded, create);
        }
      }
    }
  }

  lemma LocatedFinal(v: View, path: Bytes)
    ensures var f := Located(v, path, false, false);
      f.Found? && f.stack != [] && !IsSymlink(v, Last(f.stack)) ==> Located(v, path, true, false) == f
  {
    hide Resolve, Components;
    if Components(path).Some? && v.root.Some? { FinalOnly(v, [v.root.value], Components(path).value, 0, 0, false); }
  }

  lemma LocatedFilled(v: View, v': View, path: Bytes, slot: Slot, final: bool, create: bool)
    requires KeepsTree(v, v') && slot in v'.entries && v'.entries[slot] in v'.inodes
    requires Located(v, path, final, true) == Missing(slot) && (final ==> !IsSymlink(v', v'.entries[slot]))
    ensures var w := Located(v', path, final, create); w.Found? && w.stack != [] && Last(w.stack) == v'.entries[slot]
  {
    hide Resolve, Components;
    KeepsRoot(v, v');
    Filled(v, v', slot, [v.root.value], Components(path).value, 0, 0, final, create);
  }

  lemma LocatedCreate(v: View, path: Bytes, final: bool)
    ensures Located(v, path, final, false) ==
      if Located(v, path, final, true).Missing? then Failed else Located(v, path, final, true)
  {
    hide Resolve, Components;
    if Components(path).Some? && v.root.Some? {
      CreateOnly(v, [v.root.value], Components(path).value, 0, 0, final);
    }
  }

  /** A path whose entry is taken away leads nowhere. */
  lemma LocatedGone(v: View, v': View, path: Bytes, final: bool)
    requires Shrinks(v, v') && ParentOf(v, path).Some? && ParentOf(v, path).value.slot !in v'.entries
    ensures Located(v', path, final, false).Failed?
  {
    hide Resolve, Components, Shrinks;
    var names := Components(path).value;
    var n := |names| - 1;
    assert names == names[..n] + [names[n]];
    assert v'.root == v.root by { ShrinksRoot(v, v'); }
    Shrunk(v, v', [v.root.value], names[..n], 0, 0, true);
    if !Located(v', path, final, false).Failed? {
      LocatedParent(v', path, final, false);
      LocatedEntry(v', path, final, false);
    }
  }

  lemma ShrinksRoot(v: View, v': View)
    requires Shrinks(v, v')
    ensures v'.root == v.root
  {
  }
}
