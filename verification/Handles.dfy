/** Open files over all Worlds: handles, open counts and orphans (daemon/namespace.cpp,
    open, dup, close, edit_handle, snapshot, fork, recover_orphans). */
module Handles {
  import opened Bytes
  import opened Paths
  import opened DirectoryTree
  import opened Namespace
  import opened Walk
  import opened Edits
  import opened Effects
  import opened WalkLaws
  import opened Operations
  import opened Worlds

  const MAX_HANDLES: nat := 4096

  /** An open inode of a World. */
  datatype Pin = Pin(world: Bytes, id: Ident)

  datatype Handle = Handle(world: Bytes, inode: Ident, revision: bool, readable: bool, writable: bool, append: bool)

  function PinOf(h: Handle): Pin {
    Pin(h.world, h.inode)
  }

  // ---- Counts ----

  /** The handles that keep an inode of a World open. */
  ghost function Live(handles: map<Token, Handle>, p: Pin): set<Token> {
    set t | t in handles && !handles[t].revision && PinOf(handles[t]) == p
  }

  ghost predicate CountsOk(handles: map<Token, Handle>, counts: map<Pin, nat>) {
    (forall p :: p in counts ==> counts[p] > 0 && counts[p] == |Live(handles, p)|) &&
    (forall t :: t in handles && !handles[t].revision ==> PinOf(handles[t]) in counts)
  }

  function Raised(counts: map<Pin, nat>, p: Pin): map<Pin, nat> {
    counts[p := (if p in counts then counts[p] else 0) + 1]
  }

  function Lowered(counts: map<Pin, nat>, p: Pin): map<Pin, nat>
    requires p in counts && counts[p] > 0
  {
    if counts[p] == 1 then counts - {p} else counts[p := counts[p] - 1]
  }

  function OpensOf(counts: map<Pin, nat>, world: Bytes): set<Ident> {
    set p | p in counts && p.world == world :: p.id
  }

  /** An open count is exactly the number of live handles, including none. */
  lemma CountIsLive(handles: map<Token, Handle>, counts: map<Pin, nat>, p: Pin)
    requires CountsOk(handles, counts)
    ensures |Live(handles, p)| == if p in counts then counts[p] else 0
  {
    if p !in counts { assert Live(handles, p) == {}; }
  }

  lemma LiveAdded(handles: map<Token, Handle>, t: Token, h: Handle, p: Pin)
    requires t !in handles
    ensures |Live(handles[t := h], p)| == |Live(handles, p)| + if !h.revision && PinOf(h) == p then 1 else 0
  {
    assert Live(handles[t := h], p) == Live(handles, p) + if !h.revision && PinOf(h) == p then {t} else {};
  }

  lemma LiveDropped(handles: map<Token, Handle>, t: Token, p: Pin)
    requires t in handles
    ensures |Live(handles, p)| ==
      |Live(handles - {t}, p)| + if !handles[t].revision && PinOf(handles[t]) == p then 1 else 0
  {
    assert handles == (handles - {t})[t := handles[t]];
    LiveAdded(handles - {t}, t, handles[t], p);
  }

  lemma CountsAdded(handles: map<Token, Handle>, counts: map<Pin, nat>, t: Token, h: Handle)
    requires CountsOk(handles, counts) && t !in handles
    ensures CountsOk(handles[t := h], if h.revision then counts else Raised(counts, PinOf(h)))
  {
    hide Live;
    var counts' := if h.revision then counts else Raised(counts, PinOf(h));
    forall p | p in counts' ensures counts'[p] > 0 && counts'[p] == |Live(handles[t := h], p)| {
      LiveAdded(handles, t, h, p);
      CountIsLive(handles, counts, p);
    }
  }

  lemma CountsDropped(handles: map<Token, Handle>, counts: map<Pin, nat>, t: Token)
    requires CountsOk(handles, counts) && t in handles
    ensures !handles[t].revision ==> PinOf(handles[t]) in counts && counts[PinOf(handles[t])] > 0
    ensures CountsOk(handles - {t}, if handles[t].revision then counts else Lowered(counts, PinOf(handles[t])))
  {
    hide Live;
    var h := handles[t];
    var counts' := if h.revision then counts else Lowered(counts, PinOf(h));
    forall p | p in counts' ensures counts'[p] > 0 && counts'[p] == |Live(handles - {t}, p)| {
      LiveDropped(handles, t, p);
    }
    forall u | u in handles - {t} && !handles[u].revision ensures PinOf(handles[u]) in counts' {
      if PinOf(handles[u]) == PinOf(h) && !h.revision {
        LiveDropped(handles, t, PinOf(h));
        StillLive(handles - {t}, u);
      }
    }
  }

  lemma StillLive(handles: map<Token, Handle>, u: Token)
    requires u in handles && !handles[u].revision
    ensures |Live(handles, PinOf(handles[u]))| > 0
  {
    assert u in Live(handles, PinOf(handles[u]));
  }

  lemma OpensRaised(counts: map<Pin, nat>, p: Pin, world: Bytes)
    ensures OpensOf(Raised(counts, p), world) == OpensOf(counts, world) + if world == p.world then {p.id} else {}
  {
    var opens := OpensOf(Raised(counts, p), world);
    if world == p.world { assert p in Raised(counts, p); }
    forall id | id in OpensOf(counts, world) ensures id in opens { assert Pin(world, id) in Raised(counts, p); }
    forall id | id in opens ensures id in OpensOf(counts, world) || (world == p.world && id == p.id) {
      if Pin(world, id) != p { assert Pin(world, id) in counts; }
    }
  }

  lemma OpensLowered(counts: map<Pin, nat>, p: Pin, world: Bytes)
    requires p in counts && counts[p] > 0
    ensures OpensOf(Lowered(counts, p), world) ==
      OpensOf(counts, world) - if world == p.world && counts[p] == 1 then {p.id} else {}
  {
    var counts' := Lowered(counts, p);
    forall id ensures id in OpensOf(counts', world) <==> Pin(world, id) in counts' {
      assert Pin(world, id) in counts' ==> id in OpensOf(counts', world);
    }
    forall id ensures id in OpensOf(counts, world) <==> Pin(world, id) in counts {
      assert Pin(world, id) in counts ==> id in OpensOf(counts, world);
    }
  }

  lemma OpensIff(counts: map<Pin, nat>, world: Bytes, id: Ident)
    ensures id in OpensOf(counts, world) <==> Pin(world, id) in counts
  {
    assert Pin(world, id) in counts ==> id in OpensOf(counts, world);
  }

  // ---- Worlds under a change of the open set ----

  lemma OpenedOk(w: World, id: Ident, opens: set<Ident>)
    requires WorldOk(w, opens) && id in w.view.inodes && w.view.inodes[id].kind.Regular?
    ensures WorldOk(w, opens + {id})
  {
    hide Sane;
  }

  lemma ClosedOk(w: World, id: Ident, opens: set<Ident>)
    requires WorldOk(w, opens)
    ensures WorldOk(w.(orphans := w.orphans - {id}), opens - {id})
  {
    hide Sane;
  }

  lemma OrphanEdited(w: World, id: Ident, o: Orphan, opens: set<Ident>)
    requires WorldOk(w, opens) && id in w.orphans && OrphanOk(o)
    ensures WorldOk(w.(orphans := w.orphans[id := o]), opens)
  {
    hide Sane;
  }

  // ---- Opening ----

  datatype Access = ReadOnly | WriteOnly | ReadWrite

  datatype Options = Options(create: bool, exclusive: bool, truncate: bool, append: bool, nofollow: bool, mode: nat)

  predicate OptionsOk(a: Access, o: Options) {
    (o.exclusive ==> o.create) && (o.truncate ==> !a.ReadOnly?) && (o.append ==> !a.ReadOnly?) && o.mode <= MODES
  }

  /** The file an open is for: an existing one, or a place to create it. */
  ghost function OpenGoal(v: View, path: Bytes, o: Options): Option<Goal> {
    if o.create then
      (if Occupied(v, path) && (o.exclusive || (o.nofollow && IsSymlink(v, v.entries[ParentOf(v, path).value.slot])))
       then None
       else GoalOf(v, path))
    else
      var f := Located(v, path, !o.nofollow, false);
      if f.Found? && f.stack != [] && !(o.nofollow && IsSymlink(v, Last(f.stack)))
      then Some(Existing(Last(f.stack)))
      else None
  }

  ghost predicate CanOpen(v: View, path: Bytes, a: Access, o: Options) {
    OptionsOk(a, o) && OpenGoal(v, path, o).Some? &&
    match OpenGoal(v, path, o).value
    case Existing(id) => id in v.inodes && v.inodes[id].kind.Regular?
    case Absent(slot) => slot.dir in v.inodes
  }

  ghost function OpenInode(v: View, path: Bytes, o: Options, newId: Ident): Ident {
    match OpenGoal(v, path, o) case Some(Existing(id)) => id case _ => newId
  }

  /** What opening does to the tree: create, truncate, or nothing. */
  ghost function OpenWorld(w: World, path: Bytes, a: Access, o: Options, newId: Ident): World
    requires CanOpen(w.view, path, a, o)
  {
    match OpenGoal(w.view, path, o).value
    case Existing(id) =>
      if o.truncate && w.view.inodes[id].size != 0 then Stored(w, id, w.view.inodes[id].mode, []) else w
    case Absent(slot) => Created(w, slot, newId, Regular, o.mode, [])
  }

  /** An open that has nothing to commit. */
  ghost predicate OnlyOpens(v: View, path: Bytes, a: Access, o: Options)
    requires CanOpen(v, path, a, o)
  {
    var g := OpenGoal(v, path, o).value;
    g.Existing? && !(o.truncate && v.inodes[g.id].size != 0)
  }

  method PlanOpen(w: World, path: Bytes, a: Access, o: Options, newId: Ident) returns (result: Option<(Changes, Ident)>)
    requires Fresh(w.view, newId)
    ensures result.Some? <==> CanOpen(w.view, path, a, o)
    ensures result.Some? ==>
      result.value.1 == OpenInode(w.view, path, o, newId) && Apply(w, result.value.0) == OpenWorld(w, path, a, o, newId)
    ensures result.Some? ==> (result.value.0 == NOTHING <==> OnlyOpens(w.view, path, a, o))
  {
    hide ParentOf, Located, ValidName, ValidId, Apply;
    if !OptionsOk(a, o) { return None; }
    var v := w.view;
    ApplyNothing(w);
    var id := newId;
    if o.create {
      var p := Parent(v, path);
      if p.None? { return None; }
      var slot, present := p.value.slot, p.value.slot in v.entries;
      LocatedEntry(v, path, true, true);
      if present && o.exclusive { return None; }
      if present {
        if o.nofollow && IsSymlink(v, v.entries[slot]) { return None; }
        var found := Locate(v, path, true, true);
        if found.Failed? || (found.Found? && found.stack == []) { return None; }
        if found.Missing? { slot, present := found.slot, false; } else { id := Last(found.stack); }
      }
      if !present {
        assert OpenGoal(v, path, o) == Some(Goal.Absent(slot));
        GoalPlace(v, path);
        var c := AddEntry(w, NOTHING, slot, newId, Regular, o.mode, [], w);
        assert slot in Apply(w, c).view.entries;
        return Some((c, newId));
      }
    } else {
      var found := Locate(v, path, !o.nofollow, false);
      if !found.Found? || found.stack == [] { return None; }
      id := Last(found.stack);
      if o.nofollow && IsSymlink(v, id) { return None; }
    }
    assert OpenGoal(v, path, o) == Some(Existing(id));
    if id !in v.inodes || !v.inodes[id].kind.Regular? { return None; }
    if o.truncate && v.inodes[id].size != 0 {
      var c := PutData(w, id, []);
      assert Apply(w, c).view.inodes[id].size == 0;
      return Some((c, id));
    }
    return Some((NOTHING, id));
  }

  /** Opening keeps the World's invariant with the opened inode added to the open set. */
  lemma OpenWorldOk(w: World, path: Bytes, a: Access, o: Options, newId: Ident, opens: set<Ident>)
    requires WorldOk(w, opens) && Fresh(w.view, newId) && CanOpen(w.view, path, a, o)
    ensures WorldOk(OpenWorld(w, path, a, o, newId), opens + {OpenInode(w.view, path, o, newId)})
  {
    hide Verified, WorldOk, ParentOf, Located, Fresh, CanCreate, SameData, OptionsOk;
    var v := w.view;
    WorldSane(w, opens);
    NoParent(v, path);
    var w', id := OpenWorld(w, path, a, o, newId), OpenInode(v, path, o, newId);
    match OpenGoal(v, path, o).value {
      case Existing(id) =>
        if o.truncate && v.inodes[id].size != 0 {
          NotEmpty(v, id);
          RecordOk(v, id);
          StoredOk(w, id, v.inodes[id].mode, [], opens);
        }
      case Absent(slot) =>
        assert o.mode <= MODES by { ModeOk(a, o); }
        GoalFree(v, path, newId, o.mode, []);
        CreatedOk(w, slot, newId, Regular, o.mode, [], opens);
    }
    OpenedOk(w', id, opens);
  }

  lemma NotEmpty(v: View, id: Ident)
    requires Sane(v) && id in v.inodes
    ensures Verified(v)
  {
  }

  lemma ModeOk(a: Access, o: Options)
    requires OptionsOk(a, o)
    ensures o.mode <= MODES
  {
  }

  /** The content a handle operation computes. */
  function HandleEdited(data: Bytes, append: bool, e: Edit): Option<Option<Bytes>> {
    if e.WriteAt? && e.offset > MAX_OFFSET then None
    else if e.WriteAt? && e.value != [] then Edited(data, WriteAt(if append then |data| else e.offset, e.value))
    else Edited(data, e)
  }

  /** What an edit through a handle comes to: an appending one writes at the end, whatever
      offset it was given. */
  function Through(append: bool, e: Edit): Edit {
    if append && e.WriteAt? then Append(e.value) else e
  }

  lemma HandleMeaning(data: Bytes, append: bool, e: Edit)
    ensures HandleEdited(data, append, e).Some? <==>
      (e.WriteAt? ==> e.offset <= MAX_OFFSET) &&
      ((e.WriteAt? && e.value == []) || SizeAfter(data, Through(append, e)) <= MAX_FILE)
    ensures HandleEdited(data, append, e).Some? ==>
      var data' := match HandleEdited(data, append, e).value case None => data case Some(bytes) => bytes;
      forall i: nat :: At(data', i) == ByteAfter(data, Through(append, e), i)
  {
    hide Edited, ByteAfter, At;
    var e' := if e.WriteAt? && e.value != [] then WriteAt(if append then |data| else e.offset, e.value) else e;
    EditAllowed(data, e');
    if HandleEdited(data, append, e).Some? {
      forall i: nat ensures At(After(data, e'), i) == ByteAfter(data, Through(append, e), i) {
        EditMeaning(data, e', i);
        AtEnd(data, append, e, i);
      }
    }
  }

  lemma AtEnd(data: Bytes, append: bool, e: Edit, i: nat)
    ensures
      var e' := if e.WriteAt? && e.value != [] then WriteAt(if append then |data| else e.offset, e.value) else e;
      ByteAfter(data, e', i) == ByteAfter(data, Through(append, e), i)
  {
  }

  // ---- What opening does ----

  /** The path leads to the open file in the new World. It is the file it led to before,
      emptied if asked; or a new empty one where it led to a free place. */
  ghost predicate OpenDone(w: World, w': World, path: Bytes, o: Options, newId: Ident, id: Ident) {
    Finds(w'.view, path, true, id) && w'.view.inodes[id].kind.Regular? &&
    match Located(w.view, path, true, true)
    case Found(stack) => stack != [] && Last(stack) == id && if o.truncate then Rewritten(w, w', id, []) else w' == w
    case Missing(slot) =>
      o.create && id == newId && slot !in w.view.entries && Added(w, w', slot, newId, Regular, o.mode, [])
    case Failed => false
  }

  /** An open is allowed exactly when its options agree, an exclusive one is for a free name,
      one that may not follow a final symlink does not meet one, and the path leads to a
      regular file or, to create one, to a free place. */
  lemma OpenAllowed(v: View, path: Bytes, a: Access, o: Options)
    requires Sane(v)
    ensures CanOpen(v, path, a, o) <==>
      (o.exclusive ==> o.create) && (a.ReadOnly? ==> !o.truncate && !o.append) && o.mode <= MODES &&
      !(o.exclusive && Occupied(v, path)) &&
      !(o.nofollow && Occupied(v, path) && IsSymlink(v, v.entries[ParentOf(v, path).value.slot])) &&
      match Located(v, path, true, true)
      case Found(stack) => stack != [] && Last(stack) in v.inodes && v.inodes[Last(stack)].kind.Regular?
      case Missing(slot) => o.create
      case Failed => false
  {
    hide Located, ParentOf, Verified;
    LocatedCreate(v, path, true);
    if ParentOf(v, path).Some? {
      LocatedEntry(v, path, true, true);
      LocatedEntry(v, path, true, false);
      LocatedEntry(v, path, false, false);
      if o.create && GoalOf(v, path).Some? && GoalOf(v, path).value.Absent? { GoalPlace(v, path); }
    } else {
      NoFile(v, path);
    }
  }

  /** Without a parent a path is illegal, leads nowhere, or is the root. */
  lemma NoFile(v: View, path: Bytes)
    requires Sane(v) && ParentOf(v, path).None?
    ensures forall final, create ::
      var f := Located(v, path, final, create);
      f.Failed? || (f.Found? && f.stack != [] && IsDirectory(v, Last(f.stack)))
  {
    hide Resolve, Components, Verified;
    if Components(path).Some? && v.root.Some? {
      if Components(path).value == [] {
        StartDirectory(v);
        RootItself(v);
      } else {
        forall final, create ensures Located(v, path, final, create).Failed? {
          if !Located(v, path, final, create).Failed? { LocatedParent(v, path, final, create); }
        }
      }
    }
  }

  lemma RootItself(v: View)
    requires v.root.Some?
    ensures forall final, create :: Resolved(v, [], final, create) == Found([v.root.value])
  {
  }

  lemma OpenedDone(w: World, path: Bytes, a: Access, o: Options, newId: Ident, opens: set<Ident>)
    requires WorldOk(w, opens) && Fresh(w.view, newId) && CanOpen(w.view, path, a, o)
    ensures OpenDone(w, OpenWorld(w, path, a, o, newId), path, o, newId, OpenInode(w.view, path, o, newId))
  {
    hide Located, ParentOf, Verified, WorldOk, Stored, Created, Rewritten, Added, ValidId;
    var v, w', id := w.view, OpenWorld(w, path, a, o, newId), OpenInode(w.view, path, o, newId);
    WorldSane(w, opens);
    OpenAllowed(v, path, a, o);
    LocatedCreate(v, path, true);
    LocatedFinal(v, path);
    match OpenGoal(v, path, o).value
    case Existing(x) =>
      EmptyFile(w, id, opens);
      if o.truncate && v.inodes[id].size != 0 {
        StoredFound(w, path, id, [], false);
        RewrittenKind(w, w', id, []);
      }
    case Absent(slot) =>
      GoalPlace(v, path);
      CreatedAdds(w, slot, newId, Regular, o.mode, []);
      AddedFound(w, w', path, slot, newId, Regular, o.mode, [], true);
      AddedKind(w, w', slot, newId, Regular, o.mode, []);
  }

  lemma EmptyFile(w: World, id: Ident, opens: set<Ident>)
    requires WorldOk(w, opens) && id in w.view.inodes && w.view.inodes[id].kind.Regular?
    ensures w.view.inodes[id].size == 0 ==> Rewritten(w, w, id, [])
  {
    hide Verified;
    NotEmpty(w.view, id);
    RecordOk(w.view, id);
  }

  lemma RewrittenKind(w: World, w': World, id: Ident, data: Bytes)
    requires Rewritten(w, w', id, data)
    ensures id in w.view.inodes && id in w'.view.inodes && w'.view.inodes[id].kind == w.view.inodes[id].kind
  {
  }

  lemma AddedKind(w: World, w': World, slot: Slot, id: Ident, kind: Kind, mode: nat, data: Bytes)
    requires Added(w, w', slot, id, kind, mode, data)
    ensures id in w'.view.inodes && w'.view.inodes[id].kind == kind
  {
  }

  // ---- The container ----

  ghost predicate WorldsOk(worlds: map<Bytes, World>, counts: map<Pin, nat>) {
    (forall w :: w in worlds ==> WorldOk(worlds[w], OpensOf(counts, w))) &&
    (forall p :: p in counts ==> p.world in worlds)
  }

  ghost predicate RevisionsOk(revisions: map<Bytes, View>, handles: map<Token, Handle>) {
    (forall r :: r in revisions ==> Verified(revisions[r])) &&
    (forall t :: t in handles && handles[t].revision ==>
      handles[t].world in revisions && handles[t].inode in revisions[handles[t].world].inodes &&
      revisions[handles[t].world].inodes[handles[t].inode].kind.Regular?)
  }

  predicate Held(handles: map<Token, Handle>, name: Bytes, revision: bool, token: Token) {
    token in handles && handles[token].world == name && handles[token].revision == revision
  }

  function NewHandle(world: Bytes, id: Ident, a: Access, o: Options): Handle {
    Handle(world, id, false, !a.WriteOnly?, !a.ReadOnly?, o.append)
  }

  function Dropped(w: World, id: Ident): World {
    w.(orphans := w.orphans - {id})
  }

  /** The bytes of the file a handle is on. */
  function FileOf(worlds: map<Bytes, World>, h: Handle): Bytes {
    if h.world in worlds && DataOf(worlds[h.world], h.inode).Some? then DataOf(worlds[h.world], h.inode).value else []
  }

  function Stretch(data: Bytes, offset: nat, count: nat): Bytes {
    if offset >= |data| then [] else if count <= |data| - offset then data[offset..offset + count] else data[offset..]
  }

  /** A read gives the bytes from the offset on, as many as asked for and there are. */
  ghost predicate Reads(content: Bytes, offset: nat, count: nat, data: Bytes) {
    forall i: nat :: At(data, i) == if i < count then At(content, offset + i) else None
  }

  /** The content of a file is with its record: in the tree or among the orphans. */
  predicate Keeps(w: World, id: Ident, content: Bytes) {
    if id in w.orphans then w.orphans[id].content == content
    else id in w.view.inodes && id in w.view.contents && w.view.contents[id] == content
  }

  /** An edit through a handle changes the bytes it says and the size, in the tree or in the
      orphan, and nothing else. */
  ghost predicate HandleDone(w: World, w': World, id: Ident, append: bool, e: Edit) {
    DataOf(w, id).Some? && DataOf(w', id).Some? &&
    var data, data' := DataOf(w, id).value, DataOf(w', id).value;
    Keeps(w, id, data) && Keeps(w', id, data') &&
    (forall i: nat :: At(data', i) == ByteAfter(data, Through(append, e), i)) &&
    if id in w.view.inodes then Rewritten(w, w', id, data')
    else
      w'.view == w.view && id in w.orphans && id in w'.orphans &&
      w'.orphans[id].inode == w.orphans[id].inode.(size := |data'|) && SameBut(w.orphans, w'.orphans, {id})
  }

  lemma HandleEditDone(w: World, id: Ident, append: bool, e: Edit, opens: set<Ident>)
    requires WorldOk(w, opens) && id in opens && DataOf(w, id).Some?
    requires HandleEdited(DataOf(w, id).value, append, e).Some?
    ensures HandleDone(w, HandleWorld(w, id, HandleEdited(DataOf(w, id).value, append, e).value), id, append, e)
  {
    hide HandleEdited, Through, ByteAfter, At, Sane, Stored, Rewritten;
    var data := DataOf(w, id).value;
    OpenData(w, id, opens);
    HandleMeaning(data, append, e);
    var edited := HandleEdited(data, append, e).value;
    if id in w.view.inodes {
      FileSize(w, id, opens);
      match edited
      case None => Untouched(w, id);
      case Some(bytes) =>
        StoredRewrites(w, id, bytes);
        RewrittenKept(w, Stored(w, id, w.view.inodes[id].mode, bytes), id, bytes);
    } else {
      WasOk(w, id, opens);
    }
  }

  lemma FileSize(w: World, id: Ident, opens: set<Ident>)
    requires WorldOk(w, opens) && id in w.view.inodes && id in w.view.contents
    ensures w.view.inodes[id].size == |w.view.contents[id]|
  {
    hide Verified;
    NotEmpty(w.view, id);
    RecordOk(w.view, id);
  }

  lemma Untouched(w: World, id: Ident)
    requires id in w.view.inodes && id in w.view.contents && w.view.inodes[id].size == |w.view.contents[id]|
    ensures Rewritten(w, w, id, w.view.contents[id])
  {
  }

  lemma RewrittenKept(w: World, w': World, id: Ident, data: Bytes)
    requires Rewritten(w, w', id, data)
    ensures id in w'.view.inodes && id in w'.view.contents && w'.view.contents[id] == data && w'.orphans == w.orphans
  {
  }

  lemma OnlyOne<K(!new), V>(m: map<K, V>, k: K, v: V)
    ensures SameBut(m, m[k := v], {k})
  {
  }

  /** A World after a handle put new content into its file. */
  function HandleWorld(w: World, id: Ident, edited: Option<Bytes>): World {
    match edited
    case None => w
    case Some(data) =>
      if id in w.view.inodes then Stored(w, id, w.view.inodes[id].mode, data)
      else if id in w.orphans then w.(orphans := w.orphans[id := Orphan(w.orphans[id].inode.(size := |data|), data)])
      else w
  }

  method PlanHandle(w: World, id: Ident, edited: Option<Bytes>) returns (c: Changes)
    requires id in w.view.inodes ==> !w.view.inodes[id].kind.Directory?
    requires id in w.view.inodes || id in w.orphans
    ensures Apply(w, c) == HandleWorld(w, id, edited)
  {
    ApplyNothing(w);
    hide Apply;
    if edited.None? { return NOTHING; }
    var data := edited.value;
    if id in w.view.inodes {
      c := PutData(w, id, data);
    } else {
      c := PutOrphan(w, NOTHING, id, Orphan(w.orphans[id].inode.(size := |data|), data));
    }
  }

  /** An open inode always has readable content. */
  lemma OpenData(w: World, id: Ident, opens: set<Ident>)
    requires WorldOk(w, opens) && id in opens
    ensures DataOf(w, id).Some? && (id in w.view.inodes ==> w.view.inodes[id].kind.Regular?)
    ensures (id in w.view.inodes <==> id !in w.orphans)
  {
    hide Verified;
    if id in w.view.inodes { RecordOk(w.view, id); }
  }

  lemma HandleWorldOk(w: World, id: Ident, data: Bytes, append: bool, e: Edit, opens: set<Ident>)
    requires WorldOk(w, opens) && id in opens && HandleEdited(data, append, e).Some?
    ensures WorldOk(HandleWorld(w, id, HandleEdited(data, append, e).value), opens)
  {
    hide WorldOk, HandleEdited, Verified;
    OpenData(w, id, opens);
    WorldSane(w, opens);
    if HandleEdited(data, append, e).value.Some? {
      var data' := HandleEdited(data, append, e).value.value;
      if id in w.view.inodes {
        RecordOk(w.view, id);
        StoredOk(w, id, w.view.inodes[id].mode, data', opens);
      } else {
        WasOk(w, id, opens);
        OrphanEdited(w, id, Orphan(w.orphans[id].inode.(size := |data'|), data'), opens);
      }
    }
  }

  lemma WasOk(w: World, id: Ident, opens: set<Ident>)
    requires WorldOk(w, opens) && id in w.orphans
    ensures OrphanOk(w.orphans[id])
  {
    hide Sane;
  }

  lemma LiveIsOpen(handles: map<Token, Handle>, counts: map<Pin, nat>, t: Token)
    requires CountsOk(handles, counts) && t in handles && !handles[t].revision
    ensures PinOf(handles[t]) in counts
  {
  }

  lemma RaisedLowered(handles: map<Token, Handle>, counts: map<Pin, nat>, p: Pin)
    requires CountsOk(handles, counts)
    ensures p in Raised(counts, p) && Raised(counts, p)[p] > 0 && Lowered(Raised(counts, p), p) == counts
  {
    hide Live;
  }

  lemma KnownWorld(worlds: map<Bytes, World>, counts: map<Pin, nat>, world: Bytes)
    requires WorldsOk(worlds, counts) && world in worlds
    ensures WorldOk(worlds[world], OpensOf(counts, world)) && Sane(worlds[world].view)
  {
    hide OpensOf, OrphansOk, OpensOk, Sane;
  }

  /** Everything an open reserves and commits, together. */
  lemma OpenStep(worlds: map<Bytes, World>, handles: map<Token, Handle>, counts: map<Pin, nat>,
                 world: Bytes, path: Bytes, a: Access, o: Options, newId: Ident, token: Token)
    requires CountsOk(handles, counts) && WorldsOk(worlds, counts) && world in worlds && token !in handles
    requires Fresh(worlds[world].view, newId) && CanOpen(worlds[world].view, path, a, o)
    ensures var h := NewHandle(world, OpenInode(worlds[world].view, path, o, newId), a, o);
      CountsOk(handles[token := h], Raised(counts, PinOf(h))) &&
      WorldsOk(worlds[world := OpenWorld(worlds[world], path, a, o, newId)], Raised(counts, PinOf(h)))
  {
    hide CountsOk, WorldsOk, OpensOf, CanOpen, OpenWorld, OpenInode, WorldOk, Fresh, Raised;
    var h := NewHandle(world, OpenInode(worlds[world].view, path, o, newId), a, o);
    KnownWorld(worlds, counts, world);
    OpenWorldOk(worlds[world], path, a, o, newId, OpensOf(counts, world));
    CountsAdded(handles, counts, token, h);
    OpenedWorlds(worlds, counts, PinOf(h), OpenWorld(worlds[world], path, a, o, newId));
  }

  /** One more open inode of one World: the others see the same open set. */
  lemma OpenedWorlds(worlds: map<Bytes, World>, counts: map<Pin, nat>, p: Pin, w': World)
    requires WorldsOk(worlds, counts) && p.world in worlds && WorldOk(w', OpensOf(counts, p.world) + {p.id})
    ensures WorldsOk(worlds[p.world := w'], Raised(counts, p))
  {
    hide WorldOk, OpensOf;
    forall w | w in worlds ensures WorldOk(worlds[p.world := w'][w], OpensOf(Raised(counts, p), w)) {
      OpensRaised(counts, p, w);
      assert OpensOf(counts, w) + {} == OpensOf(counts, w);
    }
  }

  lemma ReopenedWorlds(worlds: map<Bytes, World>, counts: map<Pin, nat>, p: Pin)
    requires WorldsOk(worlds, counts) && p in counts
    ensures WorldsOk(worlds, Raised(counts, p))
  {
    hide WorldOk, OpensOf;
    OpensIff(counts, p.world, p.id);
    assert OpensOf(counts, p.world) + {p.id} == OpensOf(counts, p.world);
    OpenedWorlds(worlds, counts, p, worlds[p.world]);
    assert worlds[p.world := worlds[p.world]] == worlds;
  }

  lemma ClosedWorlds(worlds: map<Bytes, World>, counts: map<Pin, nat>, p: Pin)
    requires WorldsOk(worlds, counts) && p in counts && counts[p] > 0
    ensures p.world in worlds
    ensures
      var worlds' := if counts[p] == 1 then worlds[p.world := Dropped(worlds[p.world], p.id)] else worlds;
      WorldsOk(worlds', Lowered(counts, p))
  {
    hide WorldOk, OpensOf;
    var worlds' := if counts[p] == 1 then worlds[p.world := Dropped(worlds[p.world], p.id)] else worlds;
    forall w | w in worlds' ensures WorldOk(worlds'[w], OpensOf(Lowered(counts, p), w)) {
      OpensLowered(counts, p, w);
      assert OpensOf(counts, w) - {} == OpensOf(counts, w);
      if w == p.world && counts[p] == 1 { ClosedOk(worlds[w], p.id, OpensOf(counts, w)); }
    }
  }

  lemma RevisionsAdded(revisions: map<Bytes, View>, handles: map<Token, Handle>, t: Token, h: Handle)
    requires RevisionsOk(revisions, handles) && !h.revision
    ensures RevisionsOk(revisions, handles[t := h])
  {
    hide Verified;
  }

  lemma RevisionsDuplicated(revisions: map<Bytes, View>, handles: map<Token, Handle>, t: Token, copy: Token)
    requires RevisionsOk(revisions, handles) && t in handles
    ensures RevisionsOk(revisions, handles[copy := handles[t]])
  {
    hide Verified;
  }

  lemma RevisionsDropped(revisions: map<Bytes, View>, handles: map<Token, Handle>, t: Token)
    requires RevisionsOk(revisions, handles)
    ensures RevisionsOk(revisions, handles - {t})
  {
    hide Verified;
  }

  class Container {
    var worlds: map<Bytes, World>
    var revisions: map<Bytes, View>
    var handles: map<Token, Handle>
    var counts: map<Pin, nat>

    ghost predicate Valid()
      reads this
    {
      CountsOk(handles, counts) && WorldsOk(worlds, counts) && RevisionsOk(revisions, handles)
    }

    constructor ()
      ensures Valid() && handles == map[] && counts == map[] && revisions == map[]
      ensures worlds == map[MAIN := World(EMPTY_VIEW, map[])]
    {
      worlds, revisions, handles, counts := map[MAIN := World(EMPTY_VIEW, map[])], map[], map[], map[];
    }

    /** Any namespace operation on one World; the others are untouched. */
    method Perform(world: Bytes, op: Operation) returns (ok: bool)
      requires Valid() && (world in worlds ==> Ready(worlds[world].view, op))
      modifies this`worlds
      ensures Valid()
      ensures ok <==> world in old(worlds) && Outcome(old(worlds)[world], op, OpensOf(counts, world)).Some?
      ensures ok ==> worlds == old(worlds)[world := Outcome(old(worlds)[world], op, OpensOf(counts, world)).value]
      ensures ok ==>
        world in worlds && Effect(old(worlds)[world], op, OpensOf(counts, world), worlds[world]) &&
        SameBut(old(worlds), worlds, {world})
      ensures !ok ==> worlds == old(worlds)
    {
      hide WorldOk, Outcome, Effect, Apply, Ready, CountsOk, RevisionsOk, OpensOf;
      if world !in worlds { return false; }
      var opens := OpensOf(counts, world);
      WorldSane(worlds[world], opens);
      var plan := Plan(worlds[world], op, opens);
      if plan.None? { return false; }
      OutcomeOk(worlds[world], op, opens);
      worlds := worlds[world := Apply(worlds[world], plan.value)];
      return true;
    }

    /** Opens a file of a World. The handle and its count are reserved before the commit
        and rolled back if that fails. */
    method Open(world: Bytes, path: Bytes, a: Access, o: Options, newId: Ident, token: Token, durable: bool)
      returns (ok: bool)
      requires Valid() && (world in worlds ==> Fresh(worlds[world].view, newId)) && token !in handles
      modifies this`worlds, this`handles, this`counts
      ensures Valid()
      ensures ok <==>
        world in old(worlds) && |old(handles)| < MAX_HANDLES && CanOpen(old(worlds)[world].view, path, a, o) &&
        (durable || OnlyOpens(old(worlds)[world].view, path, a, o))
      ensures ok ==> worlds == old(worlds)[world := OpenWorld(old(worlds)[world], path, a, o, newId)]
      ensures ok ==>
        handles == old(handles)[token := NewHandle(world, OpenInode(old(worlds)[world].view, path, o, newId), a, o)]
      ensures ok ==> SameBut(old(worlds), worlds, {world}) && SameBut(old(handles), handles, {token})
      ensures ok ==>
        world in worlds && token in handles && handles[token].world == world && !handles[token].revision &&
        (handles[token].readable <==> !a.WriteOnly?) && (handles[token].writable <==> !a.ReadOnly?) &&
        handles[token].append == o.append &&
        OpenDone(old(worlds)[world], worlds[world], path, o, newId, handles[token].inode)
      ensures !ok ==> worlds == old(worlds) && handles == old(handles) && counts == old(counts)
    {
      hide Sane, WorldsOk, Apply, Fresh, CountsOk, RevisionsOk, OpensOf, CanOpen, OpenWorld, OpenInode, OnlyOpens,
           Raised, Lowered, OpenDone, SameBut;
      if world !in worlds || |handles| >= MAX_HANDLES { return false; }
      var plan := PlanOpen(worlds[world], path, a, o, newId);
      if plan.None? { return false; }
      var c, id := plan.value.0, plan.value.1;
      var h := NewHandle(world, id, a, o);
      OpenStep(worlds, handles, counts, world, path, a, o, newId, token);
      KnownWorld(worlds, counts, world);
      OpenedDone(worlds[world], path, a, o, newId, OpensOf(counts, world));
      RevisionsAdded(revisions, handles, token, h);
      handles := handles[token := h];
      counts := Raised(counts, PinOf(h));
      if c != NOTHING && !durable {
        RaisedLowered(old(handles), old(counts), PinOf(h));
        counts := Lowered(counts, PinOf(h));
        handles := handles - {token};
        assert handles == old(handles);
        return false;
      }
      OnlyOne(worlds, world, Apply(worlds[world], c));
      OnlyOne(old(handles), token, h);
      worlds := worlds[world := Apply(worlds[world], c)];
      return true;
    }

    /** Opens a regular file of a read-only revision; revisions have no open counts. */
    method OpenRevision(name: Bytes, path: Bytes, nofollow: bool, token: Token) returns (ok: bool)
      requires Valid() && token !in handles
      modifies this`handles
      ensures Valid()
      ensures ok <==>
        name in revisions && |old(handles)| < MAX_HANDLES &&
        CanOpen(revisions[name], path, ReadOnly, Options(false, false, false, false, nofollow, 0))
      ensures ok ==>
        var inode := OpenInode(revisions[name], path, Options(false, false, false, false, nofollow, 0), []);
        handles == old(handles)[token := Handle(name, inode, true, true, false, false)]
      ensures ok ==>
        token in handles && handles[token].world == name && handles[token].revision && handles[token].readable &&
        !handles[token].writable && Finds(revisions[name], path, true, handles[token].inode) &&
        SameBut(old(handles), handles, {token})
      ensures !ok ==> handles == old(handles)
    {
      hide WorldOk, CountsOk, WorldsOk, Located, Verified;
      if name !in revisions || |handles| >= MAX_HANDLES { return false; }
      var v := revisions[name];
      var found := Locate(v, path, !nofollow, false);
      if !found.Found? || found.stack == [] { return false; }
      var id := Last(found.stack);
      if id !in v.inodes || !v.inodes[id].kind.Regular? { return false; }
      LocatedFinal(v, path);
      CountsAdded(handles, counts, token, Handle(name, id, true, true, false, false));
      handles := handles[token := Handle(name, id, true, true, false, false)];
      return true;
    }

    /** A second handle on the same file. */
    method Dup(name: Bytes, revision: bool, token: Token, copy: Token) returns (ok: bool)
      requires Valid() && copy !in handles
      modifies this`handles, this`counts
      ensures Valid()
      ensures ok <==> Held(old(handles), name, revision, token) && |old(handles)| < MAX_HANDLES
      ensures handles == if ok then old(handles)[copy := old(handles)[token]] else old(handles)
      ensures !ok ==> counts == old(counts)
    {
      hide WorldOk, CountsOk, RevisionsOk, OpensOf;
      if !Held(handles, name, revision, token) || |handles| >= MAX_HANDLES { return false; }
      var h := handles[token];
      CountsAdded(handles, counts, copy, h);
      RevisionsDuplicated(revisions, handles, token, copy);
      if !h.revision {
        LiveIsOpen(handles, counts, token);
        ReopenedWorlds(worlds, counts, PinOf(h));
        counts := Raised(counts, PinOf(h));
      }
      handles := handles[copy := h];
      return true;
    }

    /** Closes a handle; the last one on an unlinked file lets the file go. */
    method Close(name: Bytes, revision: bool, token: Token) returns (ok: bool)
      requires Valid()
      modifies this`worlds, this`handles, this`counts
      ensures Valid()
      ensures ok <==> Held(old(handles), name, revision, token)
      ensures !ok ==> worlds == old(worlds) && handles == old(handles) && counts == old(counts)
      ensures ok ==> handles == old(handles) - {token}
      ensures ok && (revision || Live(handles, Pin(name, old(handles)[token].inode)) != {}) ==> worlds == old(worlds)
      ensures ok && !revision && Live(handles, Pin(name, old(handles)[token].inode)) == {} ==>
        name in old(worlds) && worlds == old(worlds)[name := Dropped(old(worlds)[name], old(handles)[token].inode)]
    {
      hide WorldOk, CountsOk, RevisionsOk, OpensOf, Live;
      if !Held(handles, name, revision, token) { return false; }
      var h := handles[token];
      CountsDropped(handles, counts, token);
      RevisionsDropped(revisions, handles, token);
      if !h.revision {
        var pin := PinOf(h);
        CountIsLive(handles, counts, pin);
        LiveDropped(handles, token, pin);
        ClosedWorlds(worlds, counts, pin);
        if counts[pin] == 1 {
          var w := worlds[pin.world];
          if pin.id in w.orphans {
            worlds := worlds[pin.world := Dropped(w, pin.id)];
          } else {
            assert w.orphans - {pin.id} == w.orphans;
            assert worlds == worlds[pin.world := Dropped(w, pin.id)];
          }
          counts := counts - {pin};
        } else {
          counts := counts[pin := counts[pin] - 1];
        }
      }
      handles := handles - {token};
      return true;
    }

    /** Changes a file's content through a handle, linked or not. */
    method EditHandle(name: Bytes, token: Token, e: Edit) returns (ok: bool)
      requires Valid()
      modifies this`worlds
      ensures Valid()
      ensures ok ==> Held(handles, name, false, token) && handles[token].writable && name in old(worlds)
      ensures ok ==>
        DataOf(old(worlds)[name], handles[token].inode).Some? &&
        HandleEdited(DataOf(old(worlds)[name], handles[token].inode).value, handles[token].append, e).Some?
      ensures ok ==>
        var w, h := old(worlds)[name], handles[token];
        var data := HandleEdited(DataOf(w, h.inode).value, h.append, e).value;
        worlds == old(worlds)[name := HandleWorld(w, h.inode, data)]
      ensures !ok ==> worlds == old(worlds)
      ensures Held(handles, name, false, token) && handles[token].writable ==>
        name in old(worlds) && DataOf(old(worlds)[name], handles[token].inode).Some? &&
        (ok <==> HandleEdited(DataOf(old(worlds)[name], handles[token].inode).value, handles[token].append, e).Some?)
      ensures ok <==>
        Held(handles, name, false, token) && handles[token].writable && (e.WriteAt? ==> e.offset <= MAX_OFFSET) &&
        ((e.WriteAt? && e.value == []) ||
          SizeAfter(FileOf(old(worlds), handles[token]), Through(handles[token].append, e)) <= MAX_FILE)
      ensures ok ==>
        name in worlds && SameBut(old(worlds), worlds, {name}) &&
        HandleDone(old(worlds)[name], worlds[name], handles[token].inode, handles[token].append, e)
    {
      hide WorldOk, CountsOk, RevisionsOk, OpensOf, Apply, HandleEdited, HandleDone, SizeAfter, Through;
      if !Held(handles, name, false, token) || !handles[token].writable { return false; }
      var h := handles[token];
      LiveIsOpen(handles, counts, token);
      OpensIff(counts, name, h.inode);
      var w := worlds[name];
      OpenData(w, h.inode, OpensOf(counts, name));
      var edited := HandleEdited(DataOf(w, h.inode).value, h.append, e);
      HandleMeaning(DataOf(w, h.inode).value, h.append, e);
      if edited.None? { return false; }
      HandleEditDone(w, h.inode, h.append, e, OpensOf(counts, name));
      HandleWorldOk(w, h.inode, DataOf(w, h.inode).value, h.append, e, OpensOf(counts, name));
      var c := PlanHandle(w, h.inode, edited.value);
      worlds := worlds[name := Apply(w, c)];
      return true;
    }

    /** Reads through a handle: the stretch of the file's current content, linked or not. */
    method ReadHandle(name: Bytes, revision: bool, token: Token, offset: nat, count: nat) returns (data: Option<Bytes>)
      requires Valid()
      ensures data.Some? <==> Held(handles, name, revision, token) && handles[token].readable && offset <= MAX_OFFSET
      ensures data.Some? && revision ==>
        name in revisions && handles[token].inode in revisions[name].contents &&
        data.value == Stretch(revisions[name].contents[handles[token].inode], offset, count)
      ensures data.Some? && !revision ==>
        name in worlds && DataOf(worlds[name], handles[token].inode).Some? &&
        data.value == Stretch(DataOf(worlds[name], handles[token].inode).value, offset, count)
      ensures data.Some? && revision ==>
        Reads(revisions[name].contents[handles[token].inode], offset, count, data.value)
      ensures data.Some? && !revision ==>
        var content := DataOf(worlds[name], handles[token].inode).value;
        Keeps(worlds[name], handles[token].inode, content) && Reads(content, offset, count, data.value)
    {
      hide WorldOk, CountsOk, OpensOf, Verified;
      if !Held(handles, name, revision, token) || !handles[token].readable || offset > MAX_OFFSET { return None; }
      var h := handles[token];
      if revision {
        RecordOk(revisions[name], h.inode);
        return Some(Stretch(revisions[name].contents[h.inode], offset, count));
      }
      LiveIsOpen(handles, counts, token);
      OpensIff(counts, name, h.inode);
      OpenData(worlds[name], h.inode, OpensOf(counts, name));
      return Some(Stretch(DataOf(worlds[name], h.inode).value, offset, count));
    }

    /** A new revision captures a World's tree; no World changes. */
    method Snapshot(world: Bytes, name: Bytes) returns (ok: bool)
      requires Valid()
      modifies this`revisions
      ensures Valid()
      ensures ok <==> name !in old(revisions) && world in worlds && worlds[world].view.root.Some?
      ensures revisions == if ok then old(revisions)[name := worlds[world].view] else old(revisions)
    {
      hide CountsOk, OpensOf, Verified, OrphansOk, OpensOk;
      if name in revisions || world !in worlds || worlds[world].view.root.None? { return false; }
      revisions := revisions[name := worlds[world].view];
      return true;
    }

    /** A new World starts as a revision's tree, with nothing open. */
    method Fork(name: Bytes, world: Bytes) returns (ok: bool)
      requires Valid()
      modifies this`worlds
      ensures Valid()
      ensures ok <==> name in revisions && world !in old(worlds) && world != MAIN
      ensures worlds == if ok then old(worlds)[world := World(revisions[name], map[])] else old(worlds)
    {
      hide CountsOk, Verified;
      if name !in revisions || world in worlds || world == MAIN { return false; }
      forall id ensures id !in OpensOf(counts, world) { OpensIff(counts, world, id); }
      worlds := worlds[world := World(revisions[name], map[])];
      return true;
    }

    /** A new process: no handle survives, and the orphans they kept are released. */
    method Restart()
      requires Valid()
      modifies this`worlds, this`handles, this`counts
      ensures Valid() && handles == map[] && counts == map[]
      ensures worlds == map w | w in old(worlds) :: World(old(worlds)[w].view, map[])
    {
      hide Sane, Verified;
      handles, counts := map[], map[];
      worlds := map w | w in worlds :: World(worlds[w].view, map[]);
    }
  }
  /** A handle opened for reading gives the bytes of the file its path leads to, and refuses
      every edit. */
  method OpenToRead(c: Container, world: Bytes, path: Bytes, nofollow: bool, newId: Ident, token: Token,
                    offset: nat, count: nat, e: Edit)
    returns (data: Option<Bytes>, edited: bool)
    requires c.Valid() && (world in c.worlds ==> Fresh(c.worlds[world].view, newId)) && token !in c.handles
    modifies c
    ensures c.Valid() && c.worlds == old(c.worlds) && !edited
    ensures data.Some? <==>
      world in c.worlds && |old(c.handles)| < MAX_HANDLES && offset <= MAX_OFFSET &&
      CanOpen(c.worlds[world].view, path, ReadOnly, Options(false, false, false, false, nofollow, 0))
    ensures data.Some? ==>
      var v := c.worlds[world].view;
      var f := Located(v, path, true, false);
      f.Found? && f.stack != [] && Last(f.stack) in v.contents &&
      Reads(v.contents[Last(f.stack)], offset, count, data.value)
  {
    hide CanOpen, Located, Reads, WorldsOk, CountsOk, RevisionsOk, OpenWorld, OpenInode;
    var ok := c.Open(world, path, ReadOnly, Options(false, false, false, false, nofollow, 0), newId, token, true);
    if !ok { return None, false; }
    LinkedFile(c.worlds, c.handles, c.counts, token);
    assert c.worlds == old(c.worlds);
    edited := c.EditHandle(world, token, e);
    data := c.ReadHandle(world, false, token, offset, count);
  }

  lemma LinkedFile(worlds: map<Bytes, World>, handles: map<Token, Handle>, counts: map<Pin, nat>, token: Token)
    requires CountsOk(handles, counts) && WorldsOk(worlds, counts) && token in handles && !handles[token].revision
    ensures handles[token].world in worlds
    ensures var w, id := worlds[handles[token].world], handles[token].inode;
      id in w.view.inodes ==> id !in w.orphans
  {
    hide WorldOk, CountsOk, OpensOf;
    var h := handles[token];
    LiveIsOpen(handles, counts, token);
    OpensIff(counts, h.world, h.inode);
    OpenData(worlds[h.world], h.inode, OpensOf(counts, h.world));
  }
}
