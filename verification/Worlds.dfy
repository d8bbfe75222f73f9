/** One World under every operation: the tree stays verified, and every open file keeps
    exactly one home (daemon/namespace.cpp). */
module Worlds {
  import opened Bytes
  import opened Paths
  import opened DirectoryTree
  import opened Namespace
  import opened Walk
  import opened Edits
  import opened Effects
  import opened Operations

  predicate OrphanOk(o: Orphan) {
    o.inode.kind.Regular? && o.inode.links == 0 && |o.content| == o.inode.size
  }

  /** Orphans are complete, open and out of the tree; their identities stay taken. */
  ghost predicate OrphansOk(w: World, opens: set<Ident>) {
    forall id :: id in w.orphans ==>
      id in opens && id !in w.view.inodes && id in w.view.taken && OrphanOk(w.orphans[id])
  }

  /** Every open inode is a linked regular file or an orphan. */
  ghost predicate OpensOk(w: World, opens: set<Ident>) {
    forall id :: id in opens ==> (id in w.view.inodes && w.view.inodes[id].kind.Regular?) || id in w.orphans
  }

  ghost predicate WorldOk(w: World, opens: set<Ident>) {
    Sane(w.view) && OrphansOk(w, opens) && OpensOk(w, opens)
  }

  /** What a handle on an inode reads. */
  function DataOf(w: World, id: Ident): Option<Bytes> {
    if id in w.view.inodes then (if id in w.view.contents then Some(w.view.contents[id]) else None)
    else if id in w.orphans then Some(w.orphans[id].content) else None
  }

  /** An edit that keeps the orphans, the open files' records and every allocation. */
  ghost predicate Carries(w: World, w': World, opens: set<Ident>) {
    w'.orphans == w.orphans && w.view.taken <= w'.view.taken &&
    (forall id :: id in opens && id in w.view.inodes ==>
      id in w'.view.inodes && w'.view.inodes[id].kind == w.view.inodes[id].kind) &&
    (forall id :: id in w.orphans ==> id !in w'.view.inodes)
  }

  lemma Carried(w: World, w': World, opens: set<Ident>)
    requires WorldOk(w, opens) && Sane(w'.view) && Carries(w, w', opens)
    ensures WorldOk(w', opens)
  {
    hide Sane, OrphanOk;
  }

  ghost predicate SameData(w: World, w': World, opens: set<Ident>) {
    forall id :: id in opens ==> DataOf(w', id) == DataOf(w, id)
  }

  lemma CreatedOk(w: World, slot: Slot, id: Ident, kind: Kind, mode: nat, data: Bytes, opens: set<Ident>)
    requires WorldOk(w, opens) && Verified(w.view) && CanCreate(w.view, slot, id, kind, mode, data)
    requires (kind.Symlink? ==> Target(data).Some?)
    ensures WorldOk(Created(w, slot, id, kind, mode, data), opens)
    ensures SameData(w, Created(w, slot, id, kind, mode, data), opens)
  {
    hide Verified, ValidName, ValidId, Target, OrphanOk;
    CreateVerified(w.view, slot, id, kind, mode, data);
    Carried(w, Created(w, slot, id, kind, mode, data), opens);
  }

  lemma StoredOk(w: World, id: Ident, mode: nat, data: Bytes, opens: set<Ident>)
    requires WorldOk(w, opens) && Verified(w.view) && CanStore(w.view, id, mode, data)
    requires (w.view.inodes[id].kind.Symlink? ==> Target(data).Some?)
    ensures WorldOk(Stored(w, id, mode, data), opens)
    ensures SameData(w, Stored(w, id, mode, data), opens - {id})
  {
    hide Verified, Target, OrphanOk;
    StoreVerified(w.view, id, mode, data);
    Carried(w, Stored(w, id, mode, data), opens);
  }

  lemma LinkedOk(w: World, slot: Slot, id: Ident, opens: set<Ident>)
    requires WorldOk(w, opens) && Verified(w.view) && CanLink(w.view, slot, id)
    ensures WorldOk(w.(view := Link(w.view, slot, id)), opens)
    ensures SameData(w, w.(view := Link(w.view, slot, id)), opens)
  {
    hide Verified, ValidName, OrphanOk;
    LinkVerified(w.view, slot, id);
    Carried(w, w.(view := Link(w.view, slot, id)), opens);
  }

  lemma MovedOk(w: World, s: Slot, t: Slot, up: seq<Ident>, opens: set<Ident>)
    requires WorldOk(w, opens) && Verified(w.view) && s in w.view.entries && t !in w.view.entries && ValidName(t.name)
    requires ChainTo(ShapeOf(w.view), up, t.dir)
    requires (w.view.entries[s] in Directories(w.view) ==> w.view.entries[s] !in up)
    ensures CanMove(w.view, s, t) && WorldOk(w.(view := Move(w.view, s, t)), opens)
    ensures SameData(w, w.(view := Move(w.view, s, t)), opens)
  {
    hide Verified, ValidName, OrphanOk, ChainTo;
    MoveVerified(w.view, s, t, up);
    Carried(w, w.(view := Move(w.view, s, t)), opens);
  }

  /** Taking a name away keeps every open file: still linked, or newly an orphan with the
      same content. */
  lemma RemovedOk(w: World, slot: Slot, opens: set<Ident>)
    requires WorldOk(w, opens) && Verified(w.view) && slot in w.view.entries
    requires Bare(ShapeOf(w.view), w.view.entries[slot])
    ensures CanUnlink(w.view, slot) && Verified(Unlink(w.view, slot)) && WorldOk(Removed(w, slot, opens), opens)
    ensures SameData(w, Removed(w, slot, opens), opens)
  {
    hide Verified, Bare;
    UnlinkVerified(w.view, slot);
    var id := w.view.entries[slot];
    RecordOk(w.view, id);
    NotOwnParent(w.view, slot);
  }

  lemma RecordOk(v: View, id: Ident)
    requires Verified(v) && id in v.inodes
    ensures NodeOk(v, id, v.inodes[id])
  {
    hide Tree, Counted, NodeOk;
  }

  lemma EmptyBare(v: View, id: Ident)
    requires v.root.Some? && Empty(v, id)
    ensures Bare(ShapeOf(v), id)
  {
  }

  lemma ChildBare(v: View, slot: Slot)
    requires Verified(v) && slot in v.entries && v.entries[slot] in v.inodes
    requires v.inodes[v.entries[slot]].kind.Directory? ==> Empty(v, v.entries[slot])
    ensures Bare(ShapeOf(v), v.entries[slot])
  {
    hide Tree, Local, Counted, Bare, Empty;
    if v.inodes[v.entries[slot]].kind.Directory? {
      EmptyBare(v, v.entries[slot]);
    } else {
      FileBare(v, v.entries[slot]);
    }
  }

  /** The replaced target is out of the way of the target directory's chain. */
  lemma UnlinkChain(v: View, slot: Slot, up: seq<Ident>)
    requires Verified(v) && slot in v.entries && CanUnlink(v, slot) && Bare(ShapeOf(v), v.entries[slot])
    requires ChainTo(ShapeOf(v), up, slot.dir)
    ensures Unlink(v, slot).root == v.root && ChainTo(ShapeOf(Unlink(v, slot)), up, slot.dir)
  {
    hide Tree, Local, Counted, Bare, ChainTo;
    NotOwnParent(v, slot);
    UnlinkShape(v, slot);
    ChainPruned(ShapeOf(v), slot, up, slot.dir);
  }

  /** Rename keeps the World: the target's name goes, then the source moves to it. */
  lemma RenamedOk(w: World, source: Bytes, target: Bytes, opens: set<Ident>)
    requires WorldOk(w, opens) && CanRename(w.view, source, target)
    ensures var w' := Renamed(w, ParentOf(w.view, source).value.slot, ParentOf(w.view, target).value.slot, opens);
      WorldOk(w', opens) && SameData(w, w', opens)
  {
    hide Verified, ParentOf, WorldOk, SameData, ChainTo, Unlink, Move, Directories, ShapeOf, Bare;
    var v, from, to := w.view, ParentOf(w.view, source).value, ParentOf(w.view, target).value;
    var s, d, up := from.slot, to.slot, to.ancestry;
    WorldSane(w, opens);
    OccupiedPlace(v, source);
    ParentChain(v, target);
    SameRefl(w, opens);
    if !Stays(v, s, d) {
      DirectoryIs(v, v.entries[s]);
      if d in v.entries {
        Named(v, d);
        ChildBare(v, d);
        RemovedOk(w, d, opens);
        UnlinkChain(v, d, up);
        var w' := Removed(w, d, opens);
        UnlinkKeeps(v, s, d);
        DirectoryIs(w'.view, v.entries[s]);
        MovedOk(w', s, d, up, opens);
        SameTwice(w, w', w'.(view := Move(w'.view, s, d)), opens);
      } else {
        MovedOk(w, s, d, up, opens);
      }
    }
  }

  lemma UnlinkKeeps(v: View, s: Slot, d: Slot)
    requires CanUnlink(v, d) && s in v.entries && s != d && v.entries[s] in v.inodes && v.entries[s] != v.entries[d]
    requires v.entries[d] != d.dir
    ensures s in Unlink(v, d).entries && d !in Unlink(v, d).entries && Unlink(v, d).entries[s] == v.entries[s]
    ensures v.entries[s] in Unlink(v, d).inodes && Unlink(v, d).inodes[v.entries[s]].kind == v.inodes[v.entries[s]].kind
  {
  }

  lemma DirectoryIs(v: View, id: Ident)
    ensures id in Directories(v) <==> id in v.inodes && v.inodes[id].kind.Directory?
  {
  }

  lemma WorldSane(w: World, opens: set<Ident>)
    requires WorldOk(w, opens)
    ensures Sane(w.view)
  {
  }

  lemma SameRefl(w: World, opens: set<Ident>)
    ensures SameData(w, w, opens)
  {
  }

  lemma SameTwice(w: World, w': World, w'': World, opens: set<Ident>)
    requires SameData(w, w', opens) && SameData(w', w'', opens)
    ensures SameData(w, w'', opens)
  {
  }

  lemma ReplacedOk(w: World, path: Bytes, value: Bytes, newId: Ident, opens: set<Ident>)
    requires WorldOk(w, opens) && Fresh(w.view, newId) && CanReplace(w.view, path, value)
    ensures WorldOk(Replaced(w, path, value, newId, opens), opens)
    ensures SameData(w, Replaced(w, path, value, newId, opens), opens)
  {
    hide Verified, ParentOf, WorldOk, SameData, Unlink, Create, ShapeOf, Bare, ValidId, ValidName;
    var v, slot := w.view, ParentOf(w.view, path).value.slot;
    WorldSane(w, opens);
    NoParent(v, path);
    ParentChain(v, path);
    if slot in v.entries {
      Named(v, slot);
      var n := v.inodes[v.entries[slot]];
      ChildBare(v, slot);
      RemovedOk(w, slot, opens);
      NotOwnParent(v, slot);
      UnlinkRoom(v, slot, newId);
      RecordOk(v, v.entries[slot]);
      var w', mode := Removed(w, slot, opens), if n.kind.Symlink? then 420 else n.mode;
      CreatedOk(w', slot, newId, Regular, mode, value, opens);
      SameTwice(w, w', Created(w', slot, newId, Regular, mode, value), opens);
    } else {
      CreatedOk(w, slot, newId, Regular, 420, value, opens);
    }
  }

  lemma UnlinkRoom(v: View, slot: Slot, id: Ident)
    requires CanUnlink(v, slot) && v.entries[slot] != slot.dir && Fresh(v, id)
    ensures slot !in Unlink(v, slot).entries && slot.dir in Unlink(v, slot).inodes && Fresh(Unlink(v, slot), id)
    ensures Unlink(v, slot).inodes[slot.dir].kind == v.inodes[slot.dir].kind
  {
    hide ValidId;
  }

  // ---- Every operation ----

  datatype Operation =
    | DoInitialize(newId: Ident)
    | DoMkdir(path: Bytes, mode: nat, newId: Ident)
    | DoSymlink(target: Bytes, path: Bytes, newId: Ident)
    | DoWrite(path: Bytes, value: Bytes, newId: Ident)
    | DoReplace(path: Bytes, value: Bytes, newId: Ident)
    | DoEdit(path: Bytes, edit: Edit)
    | DoLink(source: Bytes, path: Bytes)
    | DoRemove(path: Bytes, directory: bool)
    | DoRename(source: Bytes, path: Bytes)

  /** Fresh identities are fresh. */
  predicate Ready(v: View, op: Operation) {
    op.DoEdit? || op.DoLink? || op.DoRemove? || op.DoRename? || Fresh(v, op.newId)
  }

  /** A file with its content edited. */
  function EditedWorld(w: World, id: Ident, e: Edit): World
    requires id in w.view.inodes && id in w.view.contents && Edited(w.view.contents[id], e).Some?
  {
    match Edited(w.view.contents[id], e).value
    case None => w
    case Some(data) => Stored(w, id, w.view.inodes[id].mode, data)
  }

  /** The World an operation leaves; None when it is refused. */
  ghost function Outcome(w: World, op: Operation, opens: set<Ident>): Option<World> {
    var v := w.view;
    match op
    case DoInitialize(newId) => if v == EMPTY_VIEW then Some(w.(view := Initial(newId))) else None
    case DoMkdir(path, mode, newId) =>
      if mode <= MODES && Free(v, path) && ParentOf(v, path).value.slot.dir in v.inodes &&
      v.inodes[ParentOf(v, path).value.slot.dir].links < MAX_LINKS
      then Some(Created(w, ParentOf(v, path).value.slot, newId, Directory, mode, [])) else None
    case DoSymlink(target, path, newId) =>
      if Target(target).Some? && Free(v, path) && ParentOf(v, path).value.slot.dir in v.inodes
      then Some(Created(w, ParentOf(v, path).value.slot, newId, Symlink, MODES, target)) else None
    case DoWrite(path, value, newId) => if CanWrite(v, path, value) then Some(Written(w, path, value, newId)) else None
    case DoReplace(path, value, newId) =>
      if CanReplace(v, path, value) then Some(Replaced(w, path, value, newId, opens)) else None
    case DoEdit(path, edit) =>
      if CanEdit(v, path, edit) then Some(EditedWorld(w, Last(Located(v, path, true, false).stack), edit)) else None
    case DoLink(source, path) =>
      if CanLinkTo(v, source, path)
      then Some(w.(view := Link(v, ParentOf(v, path).value.slot, Last(Located(v, source, false, false).stack))))
      else None
    case DoRemove(path, directory) =>
      if CanRemove(v, path, directory) && CanUnlink(v, ParentOf(v, path).value.slot)
      then Some(Removed(w, ParentOf(v, path).value.slot, opens)) else None
    case DoRename(source, path) =>
      if CanRename(v, source, path)
      then Some(Renamed(w, ParentOf(v, source).value.slot, ParentOf(v, path).value.slot, opens))
      else None
  }

  /** What an operation that succeeds has done, in terms of paths, entries and bytes. */
  ghost predicate Effect(w: World, op: Operation, opens: set<Ident>, w': World) {
    var v, v' := w.view, w'.view;
    match op
    case DoInitialize(newId) =>
      v == EMPTY_VIEW && w'.orphans == w.orphans && v'.root == Some(newId) && v'.taken == {newId} &&
      v'.inodes == map[newId := Inode(Directory, 493, 2, 0)] && v'.entries == map[] && v'.contents == map[]
    case DoMkdir(path, mode, newId) =>
      Free(v, path) && Added(w, w', ParentOf(v, path).value.slot, newId, Directory, mode, []) &&
      Finds(v', path, true, newId)
    case DoSymlink(target, path, newId) =>
      Free(v, path) && Added(w, w', ParentOf(v, path).value.slot, newId, Symlink, MODES, target) &&
      Finds(v', path, false, newId)
    case DoWrite(path, value, newId) => WriteDone(w, w', path, value, newId)
    case DoReplace(path, value, newId) =>
      CanReplace(v, path, value) && ReplaceDone(w, w', path, value, newId, opens)
    case DoEdit(path, edit) =>
      CanEdit(v, path, edit) && EditDone(w, w', Last(Located(v, path, true, false).stack), path, edit)
    case DoLink(source, path) =>
      CanLinkTo(v, source, path) &&
      var id := Last(Located(v, source, false, false).stack);
      AddsName(w, w', ParentOf(v, path).value.slot, id) && Finds(v', path, false, id)
    case DoRemove(path, directory) =>
      CanRemove(v, path, directory) && Unnamed(w, w', ParentOf(v, path).value.slot, opens) &&
      forall final :: Located(v', path, final, false).Failed?
    case DoRename(source, path) => CanRename(v, source, path) && RenameDone(w, w', source, path, opens)
  }

  lemma ParentPresent(v: View, path: Bytes)
    requires ParentOf(v, path).Some?
    ensures ParentOf(v, path).value.slot.dir in v.inodes
  {
    hide Resolved, Components;
  }

  /** The changes an operation commits. */
  method Plan(w: World, op: Operation, opens: set<Ident>) returns (result: Option<Changes>)
    requires Sane(w.view) && Ready(w.view, op)
    ensures result.Some? <==> Outcome(w, op, opens).Some?
    ensures result.Some? ==> Outcome(w, op, opens) == Some(Apply(w, result.value))
    ensures result.Some? ==> Effect(w, op, opens, Apply(w, result.value))
  {
    hide ParentOf, Located, Sane, Apply, CanWrite, Written, CanReplace, Replaced, CanRename, Renamed, Removed,
         Created, Stored, Edited, Target, Fresh, Unlink, Link, Added, Finds, WriteDone, ReplaceDone, EditDone, AddsName,
         Unnamed, RenameDone;
    if (op.DoMkdir? || op.DoSymlink?) && ParentOf(w.view, op.path).Some? { ParentPresent(w.view, op.path); }
    match op
    case DoInitialize(newId) => result := Initialize(w, newId);
    case DoMkdir(path, mode, newId) =>
      result := Mkdir(w, path, mode, newId);
    case DoSymlink(target, path, newId) => result := MakeSymlink(w, target, path, newId);
    case DoWrite(path, value, newId) => result := Write(w, path, value, newId);
    case DoReplace(path, value, newId) => result := Replace(w, path, value, newId, opens);
    case DoEdit(path, edit) => result := EditContent(w, path, edit);
    case DoLink(source, path) => result := MakeLink(w, source, path);
    case DoRemove(path, directory) => result := Remove(w, path, directory, opens);
    case DoRename(source, path) => result := Rename(w, source, path, opens);
  }

  /** Operations that rewrite a file's bytes in place; all others leave every open file's
      content alone. */
  predicate Rewrites(op: Operation) {
    op.DoWrite? || op.DoEdit?
  }

  lemma WrittenOk(w: World, path: Bytes, value: Bytes, newId: Ident, opens: set<Ident>)
    requires WorldOk(w, opens) && Fresh(w.view, newId) && CanWrite(w.view, path, value)
    ensures WorldOk(Written(w, path, value, newId), opens)
  {
    hide Verified, ParentOf, Located, WorldOk, SameData, Fresh, CanCreate, Create, Store;
    WorldSane(w, opens);
    GoalLive(w.view, path);
    match GoalOf(w.view, path).value
    case Existing(id) =>
      RecordOk(w.view, id);
      StoredOk(w, id, w.view.inodes[id].mode, value, opens);
    case Absent(slot) =>
      GoalFree(w.view, path, newId, 420, value);
      if slot.dir in w.view.inodes { CreatedOk(w, slot, newId, Regular, 420, value, opens); }
  }

  /** A lookup that follows the last name never ends on a symlink. */
  lemma {:induction false} FinalFile(v: View, stack: seq<Ident>, pending: seq<Name>, follows: nat, expanded: nat,
                                     create: bool)
    requires v.root.Some? && stack != [] && Physical(ShapeOf(v), stack) && AllUsable(pending)
    requires !IsSymlink(v, Last(stack))
    ensures var w := Resolve(v, stack, pending, follows, expanded, true, create);
      w.Found? && w.stack != [] ==> !IsSymlink(v, Last(w.stack))
    decreases MAX_FOLLOWS - follows, |pending|
  {
    hide Physical, Chain, ShapeOf, Target, Usable;
    if pending != [] && IsDirectory(v, Last(stack)) {
      var g, name, rest, slot := ShapeOf(v), pending[0], pending[1..], Slot(Last(stack), pending[0]);
      InShape(v, slot.dir);
      PhysicalChain(g, stack);
      RootPhysical(g, stack);
      StackDirectories(v, stack);
      if name == DOT {
        FinalFile(v, stack, rest, follows, expanded, create);
      } else if name == DOTDOT {
        FinalFile(v, if |stack| > 1 then stack[..|stack| - 1] else stack, rest, follows, expanded, create);
      } else if slot in v.entries && v.entries[slot] in v.inodes {
        var child := v.entries[slot];
        if v.inodes[child].kind.Symlink? {
          if follows < MAX_FOLLOWS && child in v.contents && Target(v.contents[child]).Some? {
            var target := v.contents[child];
            TargetUsable(target);
            FinalFile(v, if target[0] == SLASH then stack[..1] else stack, Target(target).value + rest, follows + 1,
                      expanded + |target|, create);
          }
        } else {
          PushPhysical(g, stack, slot);
          FinalFile(v, stack + [child], rest, follows, expanded, create);
        }
      }
    }
  }

  lemma StackDirectories(v: View, stack: seq<Ident>)
    requires v.root.Some? && Chain(ShapeOf(v), stack)
    ensures IsDirectory(v, stack[0]) && (|stack| > 1 ==> IsDirectory(v, stack[|stack| - 2]))
  {
    hide Edge;
  }

  lemma LocatedFile(v: View, path: Bytes, create: bool)
    requires Verified(v)
    ensures var f := Located(v, path, true, create); f.Found? && f.stack != [] ==> !IsSymlink(v, Last(f.stack))
  {
    hide Resolve, Components, Tree, Local, Counted, ShapeOf;
    if Components(path).Some? {
      StartPhysical(v);
      AllValid(path);
      StartDirectory(v);
      FinalFile(v, [v.root.value], Components(path).value, 0, 0, create);
    }
  }

  lemma StartDirectory(v: View)
    requires Verified(v)
    ensures IsDirectory(v, v.root.value)
  {
    hide Local, Counted, AllReached;
  }

  lemma EditedOk(w: World, path: Bytes, e: Edit, opens: set<Ident>)
    requires WorldOk(w, opens) && CanEdit(w.view, path, e)
    ensures WorldOk(EditedWorld(w, Last(Located(w.view, path, true, false).stack), e), opens)
  {
    hide Verified, WorldOk, Located, Edited, Store;
    var v := w.view;
    WorldSane(w, opens);
    NoneFound(v, path);
    LocatedFile(v, path, false);
    var id := Last(Located(v, path, true, false).stack);
    RecordOk(v, id);
    match Edited(v.contents[id], e).value
    case None =>
    case Some(data) => StoredOk(w, id, v.inodes[id].mode, data, opens);
  }

  lemma NoneFound(v: View, path: Bytes)
    ensures v == EMPTY_VIEW ==> Located(v, path, true, false) == Failed && Located(v, path, false, false) == Failed
  {
    hide Components;
  }

  lemma LinkToOk(w: World, source: Bytes, path: Bytes, opens: set<Ident>)
    requires WorldOk(w, opens) && CanLinkTo(w.view, source, path)
    ensures
      var id := Last(Located(w.view, source, false, false).stack);
      var w' := w.(view := Link(w.view, ParentOf(w.view, path).value.slot, id));
      WorldOk(w', opens) && SameData(w, w', opens)
  {
    hide Verified, WorldOk, SameData, Located, ParentOf, Link, ValidName;
    WorldSane(w, opens);
    NoParent(w.view, path);
    ParentChain(w.view, path);
    LinkedOk(w, ParentOf(w.view, path).value.slot, Last(Located(w.view, source, false, false).stack), opens);
  }

  lemma RemoveOk(w: World, path: Bytes, directory: bool, opens: set<Ident>)
    requires WorldOk(w, opens) && CanRemove(w.view, path, directory)
    ensures CanUnlink(w.view, ParentOf(w.view, path).value.slot)
    ensures var w' := Removed(w, ParentOf(w.view, path).value.slot, opens); WorldOk(w', opens) && SameData(w, w', opens)
  {
    hide Verified, WorldOk, SameData, ParentOf, Unlink, Bare, ShapeOf, Empty;
    WorldSane(w, opens);
    OccupiedPlace(w.view, path);
    ChildBare(w.view, ParentOf(w.view, path).value.slot);
    RemovedOk(w, ParentOf(w.view, path).value.slot, opens);
  }

  lemma CreateOk(w: World, path: Bytes, newId: Ident, kind: Kind, mode: nat, data: Bytes, opens: set<Ident>)
    requires WorldOk(w, opens) && Free(w.view, path) && Fresh(w.view, newId) && mode <= MODES
    requires (kind.Directory? ==> data == [])
    requires kind.Symlink? ==> Target(data).Some?
    ensures ParentOf(w.view, path).value.slot.dir in w.view.inodes
    ensures var w' := Created(w, ParentOf(w.view, path).value.slot, newId, kind, mode, data);
      WorldOk(w', opens) && SameData(w, w', opens)
  {
    hide Verified, WorldOk, SameData, ParentOf, Create, Fresh, Target, ValidName, ValidId;
    WorldSane(w, opens);
    FreePlace(w.view, path, newId, kind, mode, data);
    CreatedOk(w, ParentOf(w.view, path).value.slot, newId, kind, mode, data, opens);
  }

  lemma InitializedOk(w: World, newId: Ident, opens: set<Ident>)
    requires WorldOk(w, opens) && w.view == EMPTY_VIEW && ValidId(newId)
    ensures WorldOk(w.(view := Initial(newId)), opens) && SameData(w, w.(view := Initial(newId)), opens)
  {
    hide Verified, ValidId, OrphanOk;
    InitialVerified(newId);
  }

  /** Every operation keeps the World's whole invariant, and only the rewriting ones can
      touch what an open handle reads. */
  lemma OutcomeOk(w: World, op: Operation, opens: set<Ident>)
    requires WorldOk(w, opens) && Ready(w.view, op) && Outcome(w, op, opens).Some?
    ensures WorldOk(Outcome(w, op, opens).value, opens)
    ensures !Rewrites(op) ==> SameData(w, Outcome(w, op, opens).value, opens)
  {
    hide WorldOk, SameData, ParentOf, Located, CanWrite, Written, CanReplace, Replaced, CanRename, Renamed, Removed,
         Created, Edited, EditedWorld, Target, Unlink, Link, ValidId;
    match op
    case DoInitialize(newId) => InitializedOk(w, newId, opens);
    case DoMkdir(path, mode, newId) => CreateOk(w, path, newId, Directory, mode, [], opens);
    case DoSymlink(target, path, newId) => CreateOk(w, path, newId, Symlink, MODES, target, opens);
    case DoWrite(path, value, newId) => WrittenOk(w, path, value, newId, opens);
    case DoReplace(path, value, newId) => ReplacedOk(w, path, value, newId, opens);
    case DoEdit(path, edit) => EditedOk(w, path, edit, opens);
    case DoLink(source, path) => LinkToOk(w, source, path, opens);
    case DoRemove(path, directory) => RemoveOk(w, path, directory, opens);
    case DoRename(source, path) => RenamedOk(w, source, path, opens);
  }
}
