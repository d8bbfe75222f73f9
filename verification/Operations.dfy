/** The namespace operations as the change sets they commit (daemon/namespace.cpp).
    An operation reads one view and fills a set of changes. Fresh identities are parameters. */
module Operations {
  import opened Bytes
  import opened Paths
  import opened DirectoryTree
  import opened Namespace
  import opened Walk
  import opened WalkLaws
  import opened Edits
  import opened Effects

  const MAX_LINKS: nat := 18446744073709551615
  const MAX_FILE: nat := 262144
  const MAX_OFFSET: nat := 9223372036854775807

  // ---- What operations mean ----

  /** A World's tree is uninitialized, or verified. */
  ghost predicate Sane(v: View) {
    v == EMPTY_VIEW || Verified(v)
  }

  /** What `new_id` returns. */
  predicate Fresh(v: View, id: Ident) {
    ValidId(id) && id !in v.taken && id !in v.inodes
  }

  predicate Empty(v: View, id: Ident) {
    forall s :: s in v.entries ==> s.dir != id
  }

  /** The changes for a new entry: the inode, its content, its allocation, the entry and
      the parent. */
  method AddEntry(w: World, c: Changes, slot: Slot, id: Ident, kind: Kind, mode: nat, data: Bytes, ghost base: World)
    returns (c': Changes)
    requires Apply(base, c) == w && slot.dir in w.view.inodes && id != slot.dir && (kind.Directory? ==> data == [])
    ensures Apply(base, c') == Created(w, slot, id, kind, mode, data)
  {
    hide Apply;
    var pn := w.view.inodes[slot.dir];
    if kind.Directory? { pn := pn.(links := pn.links + 1); }
    c' := PutEntry(base, c, slot, id);
    c' := PutInode(base, c', id, Inode(kind, mode, if kind.Directory? then 2 else 1, |data|));
    if !kind.Directory? { c' := PutContent(base, c', id, data); }
    c' := PutInode(base, c', slot.dir, pn);
    c' := Take(base, c', id);
  }

  method LoseName(w: World, id: Ident, opens: set<Ident>) returns (c: Changes)
    requires id in w.view.inodes && w.view.inodes[id].links > 0
    requires w.view.inodes[id].kind.Directory? <==> id !in w.view.contents
    ensures Apply(w, c) == Lost(w, id, opens)
  {
    ApplyNothing(w);
    hide Apply;
    var n := w.view.inodes[id];
    c := NOTHING;
    if n.kind.Directory? || n.links == 1 {
      c := DropInode(w, c, id);
      if !n.kind.Directory? {
        c := DropContent(w, c, id);
        if id in opens { c := PutOrphan(w, c, id, Orphan(n.(links := 0), w.view.contents[id])); }
      }
    } else {
      c := PutInode(w, c, id, n.(links := n.links - 1));
    }
    if id !in w.view.contents { assert w.view.contents - {id} == w.view.contents; }
  }

  lemma ContentKinds(v: View, id: Ident)
    requires Verified(v) && id in v.inodes
    ensures v.inodes[id].kind.Directory? <==> id !in v.contents
  {
    hide Tree, Counted, ValidName, ValidId, Readable;
    assert NodeOk(v, id, v.inodes[id]);
  }

  // ---- Creation ----

  /** A new root directory in an empty store. */
  method Initialize(w: World, newId: Ident) returns (result: Option<Changes>)
    requires Fresh(w.view, newId)
    ensures result.Some? <==> w.view == EMPTY_VIEW
    ensures result.Some? ==> Apply(w, result.value) == w.(view := Initial(newId))
    ensures result.Some? ==>
      var v := Apply(w, result.value).view;
      v.root == Some(newId) && v.inodes == map[newId := Inode(Directory, 493, 2, 0)] && v.entries == map[] &&
      v.contents == map[] && v.taken == {newId}
  {
    hide Verified;
    if w.view.root.Some? || w.view != EMPTY_VIEW { return None; }
    var c := NOTHING.(root := Some(newId));
    assert Apply(w, c) == w.(view := w.view.(root := Some(newId))) by { ApplyNothing(w); }
    hide Apply;
    c := PutInode(w, c, newId, Inode(Directory, 493, 2, 0));
    c := Take(w, c, newId);
    return Some(c);
  }

  ghost predicate Free(v: View, path: Bytes) {
    ParentOf(v, path).Some? && ParentOf(v, path).value.slot !in v.entries
  }

  lemma FreePlace(v: View, path: Bytes, newId: Ident, kind: Kind, mode: nat, data: Bytes)
    requires Sane(v) && Free(v, path) && Fresh(v, newId) && mode <= MODES && (kind.Directory? ==> data == [])
    ensures Verified(v) && CanCreate(v, ParentOf(v, path).value.slot, newId, kind, mode, data)
  {
    hide Verified, ValidName, ValidId;
    if v != EMPTY_VIEW { ParentChain(v, path); } else { NoParent(v, path); }
  }

  lemma NoParent(v: View, path: Bytes)
    ensures v == EMPTY_VIEW ==> ParentOf(v, path) == None
  {
    hide Components;
  }

  /** In any World at all, a path's parent is a directory and its name can be stored. */
  lemma ParentLive(v: View, path: Bytes)
    requires ParentOf(v, path).Some?
    ensures IsDirectory(v, ParentOf(v, path).value.slot.dir) && ValidName(ParentOf(v, path).value.slot.name)
  {
    hide Resolved, Components, ValidName;
    ValidLast(v, path);
  }

  /** What is put at a free name is what the path then leads to. */
  lemma FreeFilled(w: World, path: Bytes, newId: Ident, kind: Kind, mode: nat, data: Bytes, final: bool)
    requires Free(w.view, path) && Fresh(w.view, newId) && !(final && kind.Symlink?)
    requires ParentOf(w.view, path).value.slot.dir in w.view.inodes
    ensures
      var slot := ParentOf(w.view, path).value.slot;
      var w' := Created(w, slot, newId, kind, mode, data);
      Added(w, w', slot, newId, kind, mode, data) && Finds(w'.view, path, final, newId)
  {
    hide ParentOf, Located, Created, Added, Finds, ValidId;
    var slot := ParentOf(w.view, path).value.slot;
    CreatedAdds(w, slot, newId, kind, mode, data);
    LocatedEntry(w.view, path, final, true);
    AddedFound(w, Created(w, slot, newId, kind, mode, data), path, slot, newId, kind, mode, data, final);
  }

  method Mkdir(w: World, path: Bytes, mode: nat, newId: Ident) returns (result: Option<Changes>)
    requires Fresh(w.view, newId)
    ensures result.Some? <==>
      mode <= MODES && Free(w.view, path) && ParentOf(w.view, path).value.slot.dir in w.view.inodes &&
      w.view.inodes[ParentOf(w.view, path).value.slot.dir].links < MAX_LINKS
    ensures result.Some? ==>
      Apply(w, result.value) == Created(w, ParentOf(w.view, path).value.slot, newId, Directory, mode, [])
    ensures result.Some? ==>
      Added(w, Apply(w, result.value), ParentOf(w.view, path).value.slot, newId, Directory, mode, []) &&
      Finds(Apply(w, result.value).view, path, true, newId)
  {
    hide ParentOf, Verified, ValidName, ValidId, Apply, Added, Finds, Created;
    if mode > MODES { return None; }
    var p := Parent(w.view, path);
    if p.None? || p.value.slot in w.view.entries { return None; }
    ParentLive(w.view, path);
    if w.view.inodes[p.value.slot.dir].links >= MAX_LINKS { return None; }
    ApplyNothing(w);
    var c := AddEntry(w, NOTHING, p.value.slot, newId, Directory, mode, [], w);
    FreeFilled(w, path, newId, Directory, mode, [], true);
    return Some(c);
  }

  method MakeSymlink(w: World, target: Bytes, path: Bytes, newId: Ident) returns (result: Option<Changes>)
    requires Fresh(w.view, newId)
    ensures result.Some? <==> Target(target).Some? && Free(w.view, path)
    ensures result.Some? ==> ParentOf(w.view, path).value.slot.dir in w.view.inodes
    ensures result.Some? ==>
      Apply(w, result.value) == Created(w, ParentOf(w.view, path).value.slot, newId, Symlink, MODES, target)
    ensures result.Some? ==>
      Added(w, Apply(w, result.value), ParentOf(w.view, path).value.slot, newId, Symlink, MODES, target) &&
      Finds(Apply(w, result.value).view, path, false, newId)
  {
    hide ParentOf, Verified, ValidName, ValidId, Apply, Target, Added, Finds, Created;
    var names := ParseTarget(target);
    if names.None? { return None; }
    var p := Parent(w.view, path);
    if p.None? || p.value.slot in w.view.entries { return None; }
    ParentLive(w.view, path);
    ApplyNothing(w);
    var c := AddEntry(w, NOTHING, p.value.slot, newId, Symlink, MODES, target, w);
    FreeFilled(w, path, newId, Symlink, MODES, target, false);
    return Some(c);
  }

  // ---- Whole-file writes ----

  datatype Goal = Existing(id: Ident) | Absent(slot: Slot)

  /** Where a creating access lands: the file the path leads to, or the free place at its end. */
  ghost function GoalOf(v: View, path: Bytes): Option<Goal> {
    if ParentOf(v, path).None? then None
    else
      match Located(v, path, true, true)
      case Found(stack) => if stack == [] then None else Some(Existing(Last(stack)))
      case Missing(slot) => Some(Goal.Absent(slot))
      case Failed => None
  }

  method PutData(w: World, id: Ident, data: Bytes) returns (c: Changes)
    requires id in w.view.inodes && !w.view.inodes[id].kind.Directory?
    ensures Apply(w, c) == Stored(w, id, w.view.inodes[id].mode, data)
  {
    ApplyNothing(w);
    hide Apply;
    c := PutInode(w, NOTHING, id, w.view.inodes[id].(size := |data|));
    c := PutContent(w, c, id, data);
  }

  /** What a whole-file write may do, and does. */
  ghost predicate CanWrite(v: View, path: Bytes, value: Bytes) {
    |value| <= MAX_FILE && GoalOf(v, path).Some? &&
    match GoalOf(v, path).value
    case Existing(id) => id in v.inodes && v.inodes[id].kind.Regular?
    case Absent(slot) => true
  }

  ghost function Written(w: World, path: Bytes, value: Bytes, newId: Ident): World
    requires CanWrite(w.view, path, value)
  {
    match GoalOf(w.view, path).value
    case Existing(id) => Stored(w, id, w.view.inodes[id].mode, value)
    case Absent(slot) => if slot.dir in w.view.inodes then Created(w, slot, newId, Regular, 420, value) else w
  }

  /** A free goal can take a new file. */
  lemma GoalFree(v: View, path: Bytes, newId: Ident, mode: nat, data: Bytes)
    requires Sane(v) && Fresh(v, newId) && GoalOf(v, path).Some? && GoalOf(v, path).value.Absent? && mode <= MODES
    ensures Verified(v) && CanCreate(v, GoalOf(v, path).value.slot, newId, Regular, mode, data)
  {
    hide Verified, ValidName, ValidId, ParentOf, Located;
    NoParent(v, path);
    LocatedLive(v, path, true, true);
  }

  lemma GoalLive(v: View, path: Bytes)
    requires Sane(v) && GoalOf(v, path).Some?
    ensures Verified(v) && (GoalOf(v, path).value.Existing? ==> GoalOf(v, path).value.id in v.inodes)
  {
    hide Verified, ParentOf, Located;
    NoParent(v, path);
    LocatedLive(v, path, true, true);
  }

  /** In any World at all, a free goal is an unused name of a directory. */
  lemma GoalPlace(v: View, path: Bytes)
    requires GoalOf(v, path).Some? && GoalOf(v, path).value.Absent?
    ensures IsDirectory(v, GoalOf(v, path).value.slot.dir) && GoalOf(v, path).value.slot !in v.entries
  {
    hide ParentOf, Components, Resolve;
    MissingFree(v, [v.root.value], Components(path).value, 0, 0, true, true);
  }

  /** After a write the path leads to a regular file with these bytes. It is the file it led
      to before, otherwise as it was; or, if it led to a free place, a new one with mode 0644.
      Nothing else changes. */
  ghost predicate WriteDone(w: World, w': World, path: Bytes, value: Bytes, newId: Ident) {
    match Located(w.view, path, true, true)
    case Found(stack) =>
      stack != [] && Last(stack) in w.view.inodes && w.view.inodes[Last(stack)].kind.Regular? &&
      Rewritten(w, w', Last(stack), value) && Finds(w'.view, path, true, Last(stack))
    case Missing(slot) =>
      slot !in w.view.entries && Added(w, w', slot, newId, Regular, 420, value) && Finds(w'.view, path, true, newId)
    case Failed => false
  }

  lemma WrittenDone(w: World, path: Bytes, value: Bytes, newId: Ident)
    requires CanWrite(w.view, path, value) && Fresh(w.view, newId)
    ensures WriteDone(w, Written(w, path, value, newId), path, value, newId)
  {
    hide ParentOf, Located, Stored, Created, Rewritten, Added, Finds, ValidId;
    var v, w' := w.view, Written(w, path, value, newId);
    match Located(v, path, true, true)
    case Found(stack) => StoredFound(w, path, Last(stack), value, true);
    case Missing(slot) =>
      GoalPlace(v, path);
      CreatedAdds(w, slot, newId, Regular, 420, value);
      AddedFound(w, w', path, slot, newId, Regular, 420, value, true);
    case Failed =>
  }

  /** A path to a file leads to it after its bytes changed. */
  lemma StoredFound(w: World, path: Bytes, id: Ident, data: Bytes, create: bool)
    requires id in w.view.inodes && w.view.inodes[id].kind.Regular?
    requires var f := Located(w.view, path, true, create); f.Found? && f.stack != [] && Last(f.stack) == id
    ensures var w' := Stored(w, id, w.view.inodes[id].mode, data);
      Rewritten(w, w', id, data) && Finds(w'.view, path, true, id)
  {
    hide Located, Stored, Rewritten, KeepsAll;
    var w' := Stored(w, id, w.view.inodes[id].mode, data);
    StoredRewrites(w, id, data);
    RewrittenKeeps(w, w', id, data);
    LocatedKept(w.view, w'.view, path, true, create);
    if create { LocatedCreate(w'.view, path, true); }
    assert id in w'.view.inodes by { RewrittenThere(w, w', id, data); }
  }

  lemma RewrittenThere(w: World, w': World, id: Ident, data: Bytes)
    requires Rewritten(w, w', id, data)
    ensures id in w'.view.inodes
  {
  }

  method Write(w: World, path: Bytes, value: Bytes, newId: Ident) returns (result: Option<Changes>)
    requires Fresh(w.view, newId)
    ensures result.Some? <==> CanWrite(w.view, path, value)
    ensures result.Some? ==> Apply(w, result.value) == Written(w, path, value, newId)
    ensures result.Some? ==> WriteDone(w, Apply(w, result.value), path, value, newId)
  {
    hide ParentOf, Located, ValidName, ValidId, Apply, WriteDone, Stored, Created;
    if |value| > MAX_FILE { return None; }
    var v := w.view;
    var p := Parent(v, path);
    if p.None? { return None; }
    var slot, present, id := p.value.slot, p.value.slot in v.entries, newId;
    LocatedEntry(v, path, true, true);
    if CanWrite(v, path, value) { WrittenDone(w, path, value, newId); }
    if present {
      id := v.entries[slot];
      if id in v.inodes && v.inodes[id].kind.Symlink? {
        var found := Locate(v, path, true, true);
        if found.Failed? || (found.Found? && found.stack == []) { return None; }
        if found.Missing? { slot, present, id := found.slot, false, newId; } else { id := Last(found.stack); }
      } else {
        if id !in v.inodes { return None; }
      }
    }
    if present {
      assert GoalOf(v, path) == Some(Existing(id));
      if id !in v.inodes || !v.inodes[id].kind.Regular? { return None; }
      var c := PutData(w, id, value);
      return Some(c);
    }
    assert GoalOf(v, path) == Some(Goal.Absent(slot));
    GoalPlace(v, path);
    ApplyNothing(w);
    var c := AddEntry(w, NOTHING, slot, newId, Regular, 420, value, w);
    return Some(c);
  }

  // ---- Links, removal and replacement ----

  ghost predicate CanLinkTo(v: View, source: Bytes, target: Bytes) {
    var f := Located(v, source, false, false);
    f.Found? && f.stack != [] && Last(f.stack) in v.inodes && !v.inodes[Last(f.stack)].kind.Directory? &&
    Free(v, target) &&
    v.inodes[Last(f.stack)].links < MAX_LINKS
  }

  method MakeLink(w: World, source: Bytes, target: Bytes) returns (result: Option<Changes>)
    ensures result.Some? <==> CanLinkTo(w.view, source, target)
    ensures result.Some? ==>
      CanLink(w.view, ParentOf(w.view, target).value.slot, Last(Located(w.view, source, false, false).stack))
    ensures result.Some? ==>
      Apply(w, result.value) ==
        w.(view := Link(w.view, ParentOf(w.view, target).value.slot, Last(Located(w.view, source, false, false).stack)))
    ensures result.Some? ==>
      var id := Last(Located(w.view, source, false, false).stack);
      AddsName(w, Apply(w, result.value), ParentOf(w.view, target).value.slot, id) &&
      Finds(Apply(w, result.value).view, target, false, id)
  {
    hide ParentOf, Located, Verified, ValidName, Apply, AddsName, Finds;
    var v := w.view;
    var found := Locate(v, source, false, false);
    if !found.Found? || found.stack == [] || Last(found.stack) !in v.inodes { return None; }
    var id := Last(found.stack);
    if v.inodes[id].kind.Directory? { return None; }
    var p := Parent(v, target);
    if p.None? || p.value.slot in v.entries || v.inodes[id].links >= MAX_LINKS { return None; }
    ParentLive(v, target);
    ApplyNothing(w);
    var c := PutEntry(w, NOTHING, p.value.slot, id);
    c := PutInode(w, c, id, v.inodes[id].(links := v.inodes[id].links + 1));
    c := PutInode(w, c, p.value.slot.dir, v.inodes[p.value.slot.dir]);
    c := Take(w, c, id);
    LinkNames(w, p.value.slot, id);
    NameFound(w, w.(view := Link(v, p.value.slot, id)), target, p.value.slot, id);
    return Some(c);
  }

  ghost predicate Occupied(v: View, path: Bytes) {
    ParentOf(v, path).Some? && ParentOf(v, path).value.slot in v.entries
  }

  /** An occupied path names a removable entry between two distinct records. */
  lemma OccupiedPlace(v: View, path: Bytes)
    requires Sane(v) && Occupied(v, path)
    ensures Verified(v) && CanUnlink(v, ParentOf(v, path).value.slot)
    ensures var slot := ParentOf(v, path).value.slot;
      v.entries[slot] != slot.dir && v.inodes[slot.dir].kind.Directory? &&
      (v.inodes[v.entries[slot]].kind.Directory? ==> v.inodes[slot.dir].links > 2) &&
      (v.inodes[v.entries[slot]].kind.Directory? <==> v.entries[slot] !in v.contents)
  {
    hide Verified, ParentOf;
    NoParent(v, path);
    var slot := ParentOf(v, path).value.slot;
    Named(v, slot);
    NotOwnParent(v, slot);
    ContentKinds(v, v.entries[slot]);
  }

  ghost predicate CanRemove(v: View, path: Bytes, directory: bool) {
    Occupied(v, path) &&
    var id := v.entries[ParentOf(v, path).value.slot];
    id in v.inodes && v.inodes[id].kind.Directory? == directory && (directory ==> Empty(v, id))
  }

  /** A removed path leads nowhere. */
  lemma RemovedGone(w: World, path: Bytes, opens: set<Ident>)
    requires ParentOf(w.view, path).Some? && CanUnlink(w.view, ParentOf(w.view, path).value.slot)
    requires var slot := ParentOf(w.view, path).value.slot; w.view.entries[slot] != slot.dir
    ensures
      var slot := ParentOf(w.view, path).value.slot;
      var w' := Removed(w, slot, opens);
      Unnamed(w, w', slot, opens) && forall final :: Located(w'.view, path, final, false).Failed?
  {
    hide ParentOf, Located, Removed, Shrinks, LosesName, SameBut;
    var slot := ParentOf(w.view, path).value.slot;
    var w' := Removed(w, slot, opens);
    RemovedUnnames(w, slot, opens);
    UnnamedShrinks(w, w', slot, opens);
    forall final ensures Located(w'.view, path, final, false).Failed? { LocatedGone(w.view, w'.view, path, final); }
  }

  method Remove(w: World, path: Bytes, directory: bool, opens: set<Ident>) returns (result: Option<Changes>)
    requires Sane(w.view)
    ensures result.Some? <==> CanRemove(w.view, path, directory)
    ensures result.Some? ==> CanUnlink(w.view, ParentOf(w.view, path).value.slot)
    ensures result.Some? ==> Apply(w, result.value) == Removed(w, ParentOf(w.view, path).value.slot, opens)
    ensures result.Some? ==>
      Unnamed(w, Apply(w, result.value), ParentOf(w.view, path).value.slot, opens) &&
      forall final :: Located(Apply(w, result.value).view, path, final, false).Failed?
  {
    hide ParentOf, Verified, Apply, Located, Unnamed;
    var v := w.view;
    var p := Parent(v, path);
    if p.None? || p.value.slot !in v.entries { return None; }
    OccupiedPlace(v, path);
    var slot := p.value.slot;
    var id := v.entries[slot];
    var n, pn := v.inodes[id], v.inodes[slot.dir];
    if n.kind.Directory? != directory { return None; }
    if directory {
      if !Empty(v, id) { return None; }
      pn := pn.(links := pn.links - 1);
    }
    var c := LoseName(w, id, opens);
    c := DropEntry(w, c, slot);
    c := PutInode(w, c, slot.dir, pn);
    RemovedGone(w, path, opens);
    return Some(c);
  }

  ghost predicate CanReplace(v: View, path: Bytes, value: Bytes) {
    |value| <= MAX_FILE && ParentOf(v, path).Some? &&
    var slot := ParentOf(v, path).value.slot;
    slot in v.entries ==> v.entries[slot] in v.inodes && !v.inodes[v.entries[slot]].kind.Directory?
  }

  /** Replacement: the old file loses the name, a new one with its mode takes it. */
  ghost function Replaced(w: World, path: Bytes, value: Bytes, newId: Ident, opens: set<Ident>): World
    requires CanReplace(w.view, path, value)
  {
    var slot := ParentOf(w.view, path).value.slot;
    if slot in w.view.entries && CanUnlink(w.view, slot) then
      var n := w.view.inodes[w.view.entries[slot]];
      var w' := Removed(w, slot, opens);
      if slot.dir in w'.view.inodes
      then Created(w', slot, newId, Regular, if n.kind.Symlink? then 420 else n.mode, value)
      else w'
    else if slot.dir in w.view.inodes then Created(w, slot, newId, Regular, 420, value)
    else w
  }

  /** After a replacement the name has a new file with these bytes: with the mode of the
      regular file it had, else 0644. What it had lost that name. Nothing else changes. */
  ghost predicate ReplaceDone(w: World, w': World, path: Bytes, value: Bytes, newId: Ident, opens: set<Ident>)
    requires ParentOf(w.view, path).Some?
  {
    var v, slot := w.view, ParentOf(w.view, path).value.slot;
    if slot in v.entries then
      v.entries[slot] in v.inodes &&
      var n := v.inodes[v.entries[slot]];
      Swapped(w, w', slot, newId, if n.kind.Regular? then n.mode else 420, value, opens) &&
      (n.kind.Regular? ==> Finds(w'.view, path, true, newId) && Finds(w'.view, path, false, newId))
    else
      Added(w, w', slot, newId, Regular, 420, value) &&
      Finds(w'.view, path, true, newId) && Finds(w'.view, path, false, newId)
  }

  lemma ReplacedDone(w: World, path: Bytes, value: Bytes, newId: Ident, opens: set<Ident>)
    requires Sane(w.view) && Fresh(w.view, newId) && CanReplace(w.view, path, value)
    ensures ReplaceDone(w, Replaced(w, path, value, newId, opens), path, value, newId, opens)
  {
    hide ParentOf, Verified, Located, Removed, Created, Swapped, Added, Finds, ValidId;
    var v, slot := w.view, ParentOf(w.view, path).value.slot;
    NoParent(v, path);
    if slot in v.entries {
      OccupiedPlace(v, path);
      var n := v.inodes[v.entries[slot]];
      var mode := if n.kind.Regular? then n.mode else 420;
      ReplacedSwaps(w, slot, newId, mode, value, opens);
      if n.kind.Regular? { SwappedFound(w, Replaced(w, path, value, newId, opens), path, newId, mode, value, opens); }
    } else {
      ParentChain(v, path);
      FreeFilled(w, path, newId, Regular, 420, value, true);
      FreeFilled(w, path, newId, Regular, 420, value, false);
    }
  }

  method Replace(w: World, path: Bytes, value: Bytes, newId: Ident, opens: set<Ident>) returns (result: Option<Changes>)
    requires Sane(w.view) && Fresh(w.view, newId)
    ensures result.Some? <==> CanReplace(w.view, path, value)
    ensures result.Some? ==> Apply(w, result.value) == Replaced(w, path, value, newId, opens)
    ensures result.Some? ==> ReplaceDone(w, Apply(w, result.value), path, value, newId, opens)
  {
    hide ParentOf, Verified, Apply, ReplaceDone;
    if |value| > MAX_FILE { return None; }
    var v := w.view;
    var p := Parent(v, path);
    if p.None? { return None; }
    var slot, mode, c := p.value.slot, 420, NOTHING;
    ghost var w' := w;
    NoParent(v, path);
    ApplyNothing(w);
    if slot in v.entries {
      OccupiedPlace(v, path);
      var id := v.entries[slot];
      if v.inodes[id].kind.Directory? { return None; }
      if !v.inodes[id].kind.Symlink? { mode := v.inodes[id].mode; }
      c := LoseName(w, id, opens);
      w' := Lost(w, id, opens);
    } else {
      ParentChain(v, path);
    }
    c := FinishEntry(w, w', c, slot, newId, mode, value);
    ReplacedDone(w, path, value, newId, opens);
    return Some(c);
  }

  /** The second half of a replacement, over whatever the first half changed. */
  method FinishEntry(w: World, ghost w': World, c: Changes, slot: Slot, id: Ident, mode: nat, data: Bytes)
    returns (c': Changes)
    requires Apply(w, c) == w' && slot.dir in w.view.inodes && slot.dir in w'.view.inodes
    requires w'.view.inodes[slot.dir] == w.view.inodes[slot.dir] && id != slot.dir
    ensures Apply(w, c') == Created(w', slot, id, Regular, mode, data)
  {
    hide Apply;
    c' := PutInode(w, c, id, Inode(Regular, mode, 1, |data|));
    c' := PutContent(w, c', id, data);
    c' := Take(w, c', id);
    c' := PutEntry(w, c', slot, id);
    c' := PutInode(w, c', slot.dir, w.view.inodes[slot.dir]);
  }

  // ---- Content edits ----

  datatype Edit = WriteAt(offset: nat, value: Bytes) | Append(value: Bytes) | Truncate(size: nat)

  function Pad(data: Bytes, size: nat): Bytes {
    if |data| >= size then data else data + Zeros(size - |data|)
  }

  /** None when refused, no content when nothing changes, else the new content. */
  function Edited(data: Bytes, e: Edit): Option<Option<Bytes>> {
    match e
    case WriteAt(offset, value) =>
      if offset > MAX_OFFSET then None
      else if value == [] then Some(None)
      else if offset + |value| > MAX_FILE || |data| > MAX_FILE then None
      else Some(Some(Pad(data, offset)[..offset] + value + Pad(data, offset + |value|)[offset + |value|..]))
    case Append(value) =>
      if |data| + |value| > MAX_FILE then None else if value == [] then Some(None) else Some(Some(data + value))
    case Truncate(size) =>
      if size > MAX_FILE then None else if size == |data| then Some(None) else Some(Some(Pad(data, size)[..size]))
  }

  /** A byte of a file; nothing at or past its end. */
  function At(data: Bytes, i: nat): Option<byte> {
    if i < |data| then Some(data[i]) else None
  }

  /** Reading the gap a write left behind gives zeros. */
  function Hole(i: nat, size: nat): Option<byte> {
    if i < size then Some(0) else None
  }

  /** A byte of a file after an edit: the edit's own where it says, else the file's, and
      zero in any gap. */
  function ByteAfter(data: Bytes, e: Edit, i: nat): Option<byte> {
    match e
    case WriteAt(offset, value) =>
      (if value == [] then At(data, i)
       else if offset <= i < offset + |value| then Some(value[i - offset])
       else if i < |data| then Some(data[i])
       else Hole(i, offset))
    case Append(value) => (if |data| <= i < |data| + |value| then Some(value[i - |data|]) else At(data, i))
    case Truncate(size) => (if i >= size then None else if i < |data| then Some(data[i]) else Hole(i, size))
  }

  /** The content after an edit that is allowed. */
  function After(data: Bytes, e: Edit): Bytes
    requires Edited(data, e).Some?
  {
    match Edited(data, e).value case None => data case Some(bytes) => bytes
  }

  lemma EditMeaning(data: Bytes, e: Edit, i: nat)
    requires Edited(data, e).Some?
    ensures At(After(data, e), i) == ByteAfter(data, e, i)
  {
  }

  /** How long the file would be. */
  function SizeAfter(data: Bytes, e: Edit): nat {
    match e
    case WriteAt(offset, value) => (if value == [] || offset + |value| <= |data| then |data| else offset + |value|)
    case Append(value) => |data| + |value|
    case Truncate(size) => size
  }

  /** An edit is allowed exactly when the file stays within its limit; writing nothing is
      allowed at every legal offset. */
  lemma EditAllowed(data: Bytes, e: Edit)
    ensures Edited(data, e).Some? <==>
      if e.WriteAt? && e.value == [] then e.offset <= MAX_OFFSET else SizeAfter(data, e) <= MAX_FILE
    ensures Edited(data, e).Some? ==> |After(data, e)| == SizeAfter(data, e)
  {
  }

  /** Changing the content of the file a path resolves to. */
  ghost predicate CanEdit(v: View, path: Bytes, e: Edit) {
    var f := Located(v, path, true, false);
    f.Found? && f.stack != [] && Last(f.stack) in v.inodes && !v.inodes[Last(f.stack)].kind.Directory? &&
    Last(f.stack) in v.contents && |v.contents[Last(f.stack)]| == v.inodes[Last(f.stack)].size &&
    Edited(v.contents[Last(f.stack)], e).Some?
  }

  /** After an edit the file's bytes are the edited ones, and nothing else changed. */
  ghost predicate EditDone(w: World, w': World, id: Ident, path: Bytes, e: Edit) {
    id in w.view.contents && id in w'.view.contents && Rewritten(w, w', id, w'.view.contents[id]) &&
    (forall i: nat :: At(w'.view.contents[id], i) == ByteAfter(w.view.contents[id], e, i)) &&
    (id in w.view.inodes && w.view.inodes[id].kind.Regular? ==> Finds(w'.view, path, true, id))
  }

  lemma EditedDone(w: World, path: Bytes, id: Ident, e: Edit)
    requires CanEdit(w.view, path, e) && id == Last(Located(w.view, path, true, false).stack)
    ensures
      var w' := match Edited(w.view.contents[id], e).value
                case None => w
                case Some(data) => Stored(w, id, w.view.inodes[id].mode, data);
      EditDone(w, w', id, path, e)
  {
    hide Located, Edited, Stored, ByteAfter, At;
    var data := w.view.contents[id];
    forall i: nat ensures At(After(data, e), i) == ByteAfter(data, e, i) { EditMeaning(data, e, i); }
    match Edited(data, e).value
    case None =>
    case Some(bytes) =>
      StoredRewrites(w, id, bytes);
      if w.view.inodes[id].kind.Regular? { StoredFound(w, path, id, bytes, false); }
  }

  method EditContent(w: World, path: Bytes, e: Edit) returns (result: Option<Changes>)
    ensures result.Some? <==> CanEdit(w.view, path, e)
    ensures result.Some? ==>
      var id := Last(Located(w.view, path, true, false).stack);
      Apply(w, result.value) ==
      match Edited(w.view.contents[id], e).value
      case None => w
      case Some(data) => Stored(w, id, w.view.inodes[id].mode, data)
    ensures result.Some? ==>
      EditDone(w, Apply(w, result.value), Last(Located(w.view, path, true, false).stack), path, e)
  {
    hide Located, Verified, Apply, Edited, EditDone, Stored;
    var v := w.view;
    var found := Locate(v, path, true, false);
    if !found.Found? || found.stack == [] || Last(found.stack) !in v.inodes { return None; }
    var id := Last(found.stack);
    if v.inodes[id].kind.Directory? || id !in v.contents || |v.contents[id]| != v.inodes[id].size { return None; }
    var edited := Edited(v.contents[id], e);
    if edited.None? { return None; }
    ApplyNothing(w);
    EditedDone(w, path, id, e);
    if edited.value.None? { return Some(NOTHING); }
    var c := PutData(w, id, edited.value.value);
    return Some(c);
  }

  // ---- Rename ----

  /** A directory may not move below itself; an occupied target must be of the same sort,
      and an occupied directory empty. */
  ghost predicate CanRename(v: View, source: Bytes, target: Bytes) {
    Occupied(v, source) && ParentOf(v, target).Some? &&
    var s, d := ParentOf(v, source).value, ParentOf(v, target).value;
    var id := v.entries[s.slot];
    id in v.inodes && s.slot.dir in v.inodes && d.slot.dir in v.inodes &&
    (s.slot != d.slot ==>
      (v.inodes[id].kind.Directory? ==> id !in d.ancestry) &&
      (d.slot in v.entries && v.entries[d.slot] != id ==>
        v.entries[d.slot] in v.inodes && v.inodes[v.entries[d.slot]].kind.Directory? == v.inodes[id].kind.Directory? &&
        (v.inodes[id].kind.Directory? ==> Empty(v, v.entries[d.slot]))) &&
      (Stays(v, s.slot, d.slot) || Roomy(v, s.slot, d.slot)))
  }

  predicate Roomy(v: View, s: Slot, d: Slot)
    requires s in v.entries && v.entries[s] in v.inodes && d.dir in v.inodes
  {
    v.inodes[v.entries[s]].kind.Directory? && s.dir != d.dir ==>
      v.inodes[d.dir].links - (if d in v.entries then 1 else 0) < MAX_LINKS
  }

  /** After a rename the target's place has what the source's had; the source's is free. Onto
      another name of the same inode it does nothing. */
  ghost predicate RenameDone(w: World, w': World, source: Bytes, target: Bytes, opens: set<Ident>)
    requires Occupied(w.view, source) && ParentOf(w.view, target).Some?
  {
    var s, d := ParentOf(w.view, source).value.slot, ParentOf(w.view, target).value.slot;
    if s == d || (d in w.view.entries && w.view.entries[d] == w.view.entries[s]) then w' == w
    else Shifted(w, w', s, d, opens)
  }

  lemma DirectoryLinks(v: View, id: Ident)
    requires Verified(v) && IsDirectory(v, id)
    ensures v.inodes[id].links >= 2
  {
    hide Tree, Local;
    assert v.inodes[id].links == Links(ShapeOf(v), id);
  }

  method Rename(w: World, source: Bytes, target: Bytes, opens: set<Ident>) returns (result: Option<Changes>)
    requires Sane(w.view)
    ensures result.Some? <==> CanRename(w.view, source, target)
    ensures result.Some? ==>
      Apply(w, result.value) ==
        Renamed(w, ParentOf(w.view, source).value.slot, ParentOf(w.view, target).value.slot, opens)
    ensures result.Some? ==> RenameDone(w, Apply(w, result.value), source, target, opens)
  {
    hide ParentOf, Verified, Apply, Renamed, Unlink, Move, Shifted;
    var v := w.view;
    var src := Parent(v, source);
    if src.None? || src.value.slot !in v.entries { return None; }
    OccupiedPlace(v, source);
    var s := src.value.slot;
    var id := v.entries[s];
    var n := v.inodes[id];
    var dst := Parent(v, target);
    if dst.None? { return None; }
    ParentChain(v, target);
    var d := dst.value.slot;
    ApplyNothing(w);
    if s == d { RenamedStays(w, s, d, opens); return Some(NOTHING); }
    if n.kind.Directory? && id in dst.value.ancestry { return None; }
    var parents := map[s.dir := v.inodes[s.dir], d.dir := v.inodes[d.dir]];
    var c := NOTHING;
    ghost var w' := w;
    if d in v.entries {
      OccupiedPlace(v, target);
      var replaced := v.entries[d];
      if replaced == id { RenamedStays(w, s, d, opens); return Some(NOTHING); }
      var other := v.inodes[replaced];
      if other.kind.Directory? != n.kind.Directory? { return None; }
      if other.kind.Directory? {
        if !Empty(v, replaced) { return None; }
        parents := Bump(parents, d.dir, -1);
      }
      c := LoseName(w, replaced, opens);
      w' := Lost(w, replaced, opens);
    }
    if n.kind.Directory? && s.dir != d.dir {
      parents := Bump(parents, s.dir, -1);
      if parents[d.dir].links >= MAX_LINKS { return None; }
      parents := Bump(parents, d.dir, 1);
    }
    c := DropEntry(w, c, s);
    c := PutEntry(w, c, d, id);
    c := PutInode(w, c, id, n);
    c := PutInode(w, c, s.dir, parents[s.dir]);
    c := PutInode(w, c, d.dir, parents[d.dir]);
    if d in v.entries { RenamedOver(w, s, d, opens, parents); } else { RenamedFree(w, s, d, opens, parents); }
    DirectoryLinks(v, s.dir);
    DirectoryLinks(v, d.dir);
    RenamedShifts(w, s, d, opens);
    return Some(c);
  }

  /** The inode records a rename writes last, over the World without the replaced record. */
  function Final(w: World, s: Slot, d: Slot, id: Ident, n: Inode, parents: map<Ident, Inode>): World
    requires s.dir in parents && d.dir in parents
  {
    w.(view := w.view.(entries := (w.view.entries - {s})[d := id],
                       inodes := w.view.inodes[id := n][s.dir := parents[s.dir]][d.dir := parents[d.dir]]))
  }

  /** What the parent records come to: one link less, one more, or both at once. */
  function Parents(v: View, s: Slot, d: Slot, directory: bool): map<Ident, Inode>
    requires s.dir in v.inodes && d.dir in v.inodes && (directory ==> v.inodes[s.dir].links > 2)
    requires directory && d in v.entries ==> v.inodes[d.dir].links > 2
  {
    var start := map[s.dir := v.inodes[s.dir], d.dir := v.inodes[d.dir]];
    var replaced := if directory && d in v.entries then Bump(start, d.dir, -1) else start;
    if directory && s.dir != d.dir then Bump(Bump(replaced, s.dir, -1), d.dir, 1) else replaced
  }

  ghost predicate Distinct(v: View, s: Slot, d: Slot) {
    s in v.entries && s.dir in v.inodes && d.dir in v.inodes && v.entries[s] in v.inodes && s != d &&
    v.entries[s] != s.dir && v.entries[s] != d.dir && v.inodes[s.dir].links > 0 &&
    (v.inodes[v.entries[s]].kind.Directory? ==> v.inodes[s.dir].links > 2)
  }

  lemma RenamedFree(w: World, s: Slot, d: Slot, opens: set<Ident>, parents: map<Ident, Inode>)
    requires Distinct(w.view, s, d) && d !in w.view.entries
    requires parents == Parents(w.view, s, d, w.view.inodes[w.view.entries[s]].kind.Directory?)
    ensures Renamed(w, s, d, opens) == Final(w, s, d, w.view.entries[s], w.view.inodes[w.view.entries[s]], parents)
  {
  }

  lemma RenamedOver(w: World, s: Slot, d: Slot, opens: set<Ident>, parents: map<Ident, Inode>)
    requires Distinct(w.view, s, d) && CanUnlink(w.view, d) && w.view.entries[d] != w.view.entries[s]
    requires w.view.entries[d] != s.dir && w.view.entries[d] != d.dir
    requires w.view.inodes[w.view.entries[d]].kind.Directory? == w.view.inodes[w.view.entries[s]].kind.Directory?
    requires w.view.inodes[w.view.entries[d]].kind.Directory? ==> w.view.inodes[d.dir].links > 2
    requires parents == Parents(w.view, s, d, w.view.inodes[w.view.entries[s]].kind.Directory?)
    ensures Renamed(w, s, d, opens) ==
            Final(Lost(w, w.view.entries[d], opens), s, d, w.view.entries[s], w.view.inodes[w.view.entries[s]], parents)
  {
    var v, r, id := w.view, w.view.entries[d], w.view.entries[s];
    var w', n := Removed(w, d, opens), w.view.inodes[w.view.entries[s]];
    assert CanMove(w'.view, s, d);
    var moved, last := Move(w'.view, s, d), Final(Lost(w, r, opens), s, d, id, n, parents);
    hide Parents;
    assert moved.entries == last.view.entries;
    if n.kind.Directory? { ParentsOver(v, s, d, r, id); } else { ParentsFile(v, s, d); }
    assert w'.orphans == last.orphans;
    assert moved.inodes == last.view.inodes;
  }

  lemma ParentsFile(v: View, s: Slot, d: Slot)
    requires s.dir in v.inodes && d.dir in v.inodes
    ensures Parents(v, s, d, false) == map[s.dir := v.inodes[s.dir], d.dir := v.inodes[d.dir]]
  {
  }

  lemma ParentsOver(v: View, s: Slot, d: Slot, r: Ident, id: Ident)
    requires s.dir in v.inodes && d.dir in v.inodes && d in v.entries && v.inodes[s.dir].links > 2
    requires v.inodes[d.dir].links > 2
    requires r != s.dir && r != d.dir && id in v.inodes && id != r && id != s.dir && id != d.dir
    ensures var m := Bump(v.inodes, d.dir, -1) - {r}; var p := Parents(v, s, d, true);
      Bump(Bump(m, s.dir, -1), d.dir, 1) == (v.inodes - {r})[id := v.inodes[id]][s.dir := p[s.dir]][d.dir := p[d.dir]]
  {
  }

  lemma RenamedStays(w: World, s: Slot, d: Slot, opens: set<Ident>)
    requires s in w.view.entries && Stays(w.view, s, d)
    ensures Renamed(w, s, d, opens) == w
  {
  }
}
