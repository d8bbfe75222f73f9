/** A World's namespace and what every edit of it keeps (daemon/namespace.cpp, verify). */
module Namespace {
  import opened Bytes
  import opened Paths
  import opened DirectoryTree

  datatype Kind = Regular | Directory | Symlink

  datatype Inode = Inode(kind: Kind, mode: nat, links: nat, size: nat)

  /** The records under the namespace prefix, by record kind. */
  datatype View = View(root: Option<Ident>, inodes: map<Ident, Inode>, taken: set<Ident>,
                       contents: map<Ident, Bytes>, entries: map<Slot, Ident>)

  const MODES: nat := 511

  predicate ValidId(id: Ident) {
    |id| == 32 && forall c :: c in id ==> 48 <= c <= 57 || 97 <= c <= 102
  }

  function Directories(v: View): set<Ident> {
    set id | id in v.inodes && v.inodes[id].kind.Directory?
  }

  function ShapeOf(v: View): Shape
    requires v.root.Some?
  {
    Shape(v.root.value, Directories(v), v.entries)
  }

  // ---- Link counts ----

  ghost function Names(g: Shape, id: Ident): set<Slot> {
    set s | s in g.entries && g.entries[s] == id
  }

  ghost function Subdirectories(g: Shape, d: Ident): set<Slot> {
    set s | s in g.entries && s.dir == d && g.entries[s] in g.dirs
  }

  /** What a link count must be: two and the subdirectories, or the names of a file. */
  ghost function Links(g: Shape, id: Ident): nat {
    if id in g.dirs then 2 + |Subdirectories(g, id)| else |Names(g, id)|
  }

  lemma Plus(a: set<Slot>, s: Slot, grows: bool)
    requires s !in a
    ensures |if grows then a + {s} else a| == |a| + if grows then 1 else 0
  {
  }

  lemma NamesPlus(g: Shape, g': Shape, slot: Slot, x: Ident)
    requires slot !in g.entries && slot in g'.entries && g'.entries.Keys == g.entries.Keys + {slot}
    requires forall s :: s in g.entries ==> g'.entries[s] == g.entries[s]
    ensures |Names(g', x)| == |Names(g, x)| + if g'.entries[slot] == x then 1 else 0
  {
    assert Names(g', x) == if g'.entries[slot] == x then Names(g, x) + {slot} else Names(g, x);
    Plus(Names(g, x), slot, g'.entries[slot] == x);
  }

  lemma SubdirectoriesPlus(g: Shape, g': Shape, slot: Slot, x: Ident)
    requires slot !in g.entries && slot in g'.entries && g'.entries.Keys == g.entries.Keys + {slot}
    requires forall s :: s in g.entries ==>
      g'.entries[s] == g.entries[s] && (g.entries[s] in g'.dirs <==> g.entries[s] in g.dirs)
    ensures |Subdirectories(g', x)| ==
      |Subdirectories(g, x)| + if slot.dir == x && g'.entries[slot] in g'.dirs then 1 else 0
  {
    var grows := slot.dir == x && g'.entries[slot] in g'.dirs;
    assert Subdirectories(g', x) == if grows then Subdirectories(g, x) + {slot} else Subdirectories(g, x);
    Plus(Subdirectories(g, x), slot, grows);
  }

  lemma LinksGrown(g: Shape, slot: Slot, id: Ident, directory: bool, x: Ident)
    requires slot !in g.entries && id !in g.dirs && slot.dir in g.dirs
    requires directory ==> Bare(g, id) && Names(g, id) == {}
    ensures Links(Grown(g, slot, id, directory), x) ==
            if directory && x == id then 2
            else Links(g, x) + (if x == (if directory then slot.dir else id) then 1 else 0)
  {
    hide Names, Subdirectories;
    var g' := Grown(g, slot, id, directory);
    NamesPlus(g, g', slot, x);
    if directory { NotNamed(g, id); }
    SubdirectoriesPlus(g, g', slot, x);
    if directory && x == id { BareEmpty(g, id); }
  }

  lemma NotNamed(g: Shape, id: Ident)
    requires Names(g, id) == {}
    ensures forall s :: s in g.entries ==> g.entries[s] != id
  {
    forall s | s in g.entries ensures g.entries[s] != id { assert g.entries[s] == id ==> s in Names(g, id); }
  }

  lemma BareEmpty(g: Shape, id: Ident)
    requires Bare(g, id)
    ensures Subdirectories(g, id) == {}
  {
  }

  lemma LinksPruned(g: Shape, slot: Slot, x: Ident)
    requires Single(g) && slot in g.entries && Bare(g, g.entries[slot])
    requires x != g.entries[slot] || x !in g.dirs
    ensures Links(g, x) ==
      Links(Pruned(g, slot), x) +
        (if x == (if g.entries[slot] in g.dirs then slot.dir else g.entries[slot]) then 1 else 0)
  {
    hide Names, Subdirectories;
    var g' := Pruned(g, slot);
    NamesPlus(g', g, slot, x);
    SubdirectoriesPlus(g', g, slot, x);
  }

  lemma LinksMoved(g: Shape, s: Slot, t: Slot, x: Ident)
    requires s in g.entries && t !in g.entries
    ensures Links(Moved(g, s, t), x) + (if g.entries[s] in g.dirs && x == s.dir && x in g.dirs then 1 else 0) ==
            Links(g, x) + (if g.entries[s] in g.dirs && x == t.dir && x in g.dirs then 1 else 0)
  {
    hide Names, Subdirectories;
    var g' := Moved(g, s, t);
    var between := g.(entries := g.entries - {s});
    NamesPlus(between, g, s, x);
    NamesPlus(between, g', t, x);
    SubdirectoriesPlus(between, g, s, x);
    SubdirectoriesPlus(between, g', t, x);
  }

  // ---- The invariant ----

  predicate NodeOk(v: View, id: Ident, n: Inode) {
    n.mode <= MODES && n.links > 0 && id in v.taken &&
    if n.kind.Directory? then n.size == 0 && id !in v.contents
    else id in v.contents && |v.contents[id]| == n.size
  }

  ghost predicate Readable(v: View) {
    forall id :: id in v.inodes && v.inodes[id].kind.Symlink? && id in v.contents ==> Target(v.contents[id]).Some?
  }

  /** Records are sound one by one, and none is left over. */
  ghost predicate Local(v: View) {
    (forall id :: id in v.inodes ==> NodeOk(v, id, v.inodes[id])) && v.contents.Keys <= v.inodes.Keys &&
    (forall s :: s in v.entries ==> v.entries[s] in v.inodes && ValidName(s.name)) &&
    (forall id :: id in v.taken ==> ValidId(id)) && Readable(v)
  }

  ghost predicate Counted(v: View)
    requires v.root.Some?
  {
    forall id :: id in v.inodes ==> v.inodes[id].links == Links(ShapeOf(v), id)
  }

  /** What `verify` demands of a World. */
  ghost predicate Verified(v: View) {
    v.root.Some? && Tree(ShapeOf(v)) && Counted(v) && Local(v)
  }

  // ---- Edits ----

  function Bump(m: map<Ident, Inode>, id: Ident, delta: int): map<Ident, Inode>
    requires id in m && m[id].links + delta >= 0
  {
    m[id := m[id].(links := m[id].links + delta)]
  }

  predicate CanCreate(v: View, slot: Slot, id: Ident, kind: Kind, mode: nat, data: Bytes) {
    slot !in v.entries && slot.dir in v.inodes && v.inodes[slot.dir].kind.Directory? && ValidName(slot.name) &&
    id !in v.taken && id !in v.inodes && ValidId(id) && mode <= MODES && (kind.Directory? ==> data == [])
  }

  function Create(v: View, slot: Slot, id: Ident, kind: Kind, mode: nat, data: Bytes): View
    requires slot.dir in v.inodes
  {
    var inodes := Bump(v.inodes, slot.dir, if kind.Directory? then 1 else 0);
    v.(inodes := inodes[id := Inode(kind, mode, if kind.Directory? then 2 else 1, |data|)], taken := v.taken + {id},
       contents := if kind.Directory? then v.contents else v.contents[id := data], entries := v.entries[slot := id])
  }

  function Link(v: View, slot: Slot, id: Ident): View
    requires id in v.inodes
  {
    v.(inodes := Bump(v.inodes, id, 1), taken := v.taken + {id}, entries := v.entries[slot := id])
  }

  /** Whether a removal drops the record: a directory, or the last name of a file. */
  predicate LastName(v: View, id: Ident)
    requires id in v.inodes
  {
    v.inodes[id].kind.Directory? || v.inodes[id].links == 1
  }

  predicate CanUnlink(v: View, slot: Slot) {
    slot in v.entries && v.entries[slot] in v.inodes && slot.dir in v.inodes && v.inodes[slot.dir].links > 0 &&
    v.inodes[v.entries[slot]].links > 0
  }

  function Unlink(v: View, slot: Slot): View
    requires CanUnlink(v, slot)
  {
    var id := v.entries[slot];
    if LastName(v, id) then
      v.(inodes := (if v.inodes[id].kind.Directory? then Bump(v.inodes, slot.dir, -1) else v.inodes) - {id},
         contents := v.contents - {id}, entries := v.entries - {slot})
    else
      v.(inodes := Bump(v.inodes, id, -1), entries := v.entries - {slot})
  }

  predicate CanMove(v: View, s: Slot, t: Slot) {
    s in v.entries && t !in v.entries && v.entries[s] in v.inodes && s.dir in v.inodes && t.dir in v.inodes &&
    v.inodes[s.dir].links > 0
  }

  function Move(v: View, s: Slot, t: Slot): View
    requires CanMove(v, s, t)
  {
    var id := v.entries[s];
    v.(inodes := if v.inodes[id].kind.Directory? then Bump(Bump(v.inodes, s.dir, -1), t.dir, 1) else v.inodes,
       entries := (v.entries - {s})[t := id])
  }

  function Store(v: View, id: Ident, mode: nat, data: Bytes): View
    requires id in v.inodes
  {
    v.(inodes := v.inodes[id := v.inodes[id].(mode := mode, size := |data|)],
       contents := if v.inodes[id].kind.Directory? then v.contents else v.contents[id := data])
  }

  // ---- Every edit keeps the invariant ----

  lemma CreateShape(v: View, slot: Slot, id: Ident, kind: Kind, mode: nat, data: Bytes)
    requires v.root.Some? && CanCreate(v, slot, id, kind, mode, data)
    ensures ShapeOf(Create(v, slot, id, kind, mode, data)) == Grown(ShapeOf(v), slot, id, kind.Directory?)
  {
    hide ValidName, ValidId;
    var v' := Create(v, slot, id, kind, mode, data);
    assert Directories(v') == if kind.Directory? then Directories(v) + {id} else Directories(v);
  }

  /** An identity without a record is nowhere in the tree. */
  lemma Absent(v: View, id: Ident)
    requires Verified(v) && id !in v.inodes
    ensures id !in ShapeOf(v).dirs && Bare(ShapeOf(v), id) && Names(ShapeOf(v), id) == {} && id !in v.contents
  {
    hide NodeOk, ValidName, ValidId, Readable, Counted, AllReached;
  }

  lemma CreateLocal(v: View, slot: Slot, id: Ident, kind: Kind, mode: nat, data: Bytes)
    requires Local(v) && CanCreate(v, slot, id, kind, mode, data) && (kind.Symlink? ==> Target(data).Some?)
    ensures Local(Create(v, slot, id, kind, mode, data))
  {
    hide ValidName, ValidId, Target;
    var v' := Create(v, slot, id, kind, mode, data);
    forall x | x in v'.inodes ensures NodeOk(v', x, v'.inodes[x]) {
      if x != id { assert NodeOk(v, x, v.inodes[x]); }
    }
  }

  /** mkdir, a first write, symlink and a creating open all keep the invariant. */
  lemma CreateVerified(v: View, slot: Slot, id: Ident, kind: Kind, mode: nat, data: Bytes)
    requires Verified(v) && CanCreate(v, slot, id, kind, mode, data) && (kind.Symlink? ==> Target(data).Some?)
    ensures Verified(Create(v, slot, id, kind, mode, data))
  {
    hide Tree, Local, Links, ShapeOf, ValidName, ValidId, Target;
    var g, v' := ShapeOf(v), Create(v, slot, id, kind, mode, data);
    CreateLocal(v, slot, id, kind, mode, data);
    CreateShape(v, slot, id, kind, mode, data);
    Absent(v, id);
    InShape(v, slot.dir);
    TreeGrownAt(g, slot, id, kind.Directory?);
    forall x | x in v'.inodes ensures v'.inodes[x].links == Links(ShapeOf(v'), x) {
      LinksGrown(g, slot, id, kind.Directory?, x);
      if !kind.Directory? && x == id { NoLinks(g, id); }
    }
  }

  lemma NoLinks(g: Shape, id: Ident)
    requires id !in g.dirs && Names(g, id) == {}
    ensures Links(g, id) == 0
  {
  }

  lemma InShape(v: View, id: Ident)
    requires v.root.Some?
    ensures id in ShapeOf(v).dirs <==> id in v.inodes && v.inodes[id].kind.Directory?
    ensures ShapeOf(v).entries == v.entries && ShapeOf(v).root == v.root.value
  {
  }

  lemma TreeGrownAt(g: Shape, slot: Slot, id: Ident, directory: bool)
    requires Tree(g) && slot !in g.entries && slot.dir in g.dirs && id !in g.dirs && (directory ==> Names(g, id) == {})
    ensures Tree(Grown(g, slot, id, directory))
  {
    hide Tree;
    if directory { NotNamed(g, id); }
    TreeGrown(g, slot, id, directory);
  }

  // -- Link --

  predicate CanLink(v: View, slot: Slot, id: Ident) {
    slot !in v.entries && slot.dir in v.inodes && v.inodes[slot.dir].kind.Directory? && ValidName(slot.name) &&
    id in v.inodes && !v.inodes[id].kind.Directory?
  }

  lemma LinkParts(v: View, slot: Slot, id: Ident)
    requires v.root.Some? && Local(v) && CanLink(v, slot, id)
    ensures Local(Link(v, slot, id)) && ShapeOf(Link(v, slot, id)) == Grown(ShapeOf(v), slot, id, false)
  {
    hide ValidName, ValidId, Target;
    assert Directories(Link(v, slot, id)) == Directories(v);
  }

  /** A second name for a file keeps the invariant. */
  lemma LinkVerified(v: View, slot: Slot, id: Ident)
    requires Verified(v) && CanLink(v, slot, id)
    ensures Verified(Link(v, slot, id))
  {
    hide Tree, Local, Links, ShapeOf, ValidName;
    var g, v' := ShapeOf(v), Link(v, slot, id);
    LinkParts(v, slot, id);
    InShape(v, slot.dir);
    InShape(v, id);
    TreeGrownAt(g, slot, id, false);
    forall x | x in v'.inodes ensures v'.inodes[x].links == Links(ShapeOf(v'), x) { LinksGrown(g, slot, id, false, x); }
  }

  // -- Unlink --

  /** An entry's directory holds a record distinct from its child's, with links to spare. */
  lemma Named(v: View, slot: Slot)
    requires Verified(v) && slot in v.entries
    ensures CanUnlink(v, slot) && v.inodes[slot.dir].kind.Directory? && ValidName(slot.name)
    ensures v.inodes[v.entries[slot]].kind.Directory? ==> v.inodes[slot.dir].links > 2
  {
    hide ValidId, AllReached, Readable;
    var id, g := v.entries[slot], ShapeOf(v);
    assert slot.dir in g.dirs;
    if id in g.dirs {
      assert slot in Subdirectories(g, slot.dir);
    }
  }

  lemma {:induction false} NotOwnParent(v: View, slot: Slot)
    requires Verified(v) && slot in v.entries
    ensures v.entries[slot] != slot.dir
  {
    hide Local, Counted, ChainTo;
    var d, g := slot.dir, ShapeOf(v);
    if v.entries[slot] == d {
      assert d in g.dirs;
      var path :| ChainTo(g, path, d);
      LoopFree(g, slot, path);
    }
  }

  lemma LoopFree(g: Shape, slot: Slot, path: seq<Ident>)
    requires Single(g) && slot in g.entries && ChainTo(g, path, slot.dir)
    ensures g.entries[slot] != slot.dir
  {
    hide Single;
    if g.entries[slot] == slot.dir {
      NewEdge(g, slot, slot.dir);
      ChainSnoc(g, path, slot.dir);
      ChainUnique(g, path, path + [slot.dir]);
      assert false;
    }
  }

  lemma UnlinkShape(v: View, slot: Slot)
    requires v.root.Some? && CanUnlink(v, slot) && v.entries[slot] != slot.dir
    requires v.inodes[v.entries[slot]].kind.Directory? || v.inodes[v.entries[slot]].links >= 1
    ensures ShapeOf(Unlink(v, slot)) == Pruned(ShapeOf(v), slot)
  {
    assert Directories(Unlink(v, slot)) == Directories(v) - {v.entries[slot]};
  }

  ghost predicate NoneElse(v: View, slot: Slot)
    requires slot in v.entries
  {
    forall s :: s in v.entries && s != slot ==> v.entries[s] != v.entries[slot]
  }

  /** A record goes only with its last name. */
  lemma OnlyName(v: View, slot: Slot)
    requires Verified(v) && slot in v.entries && v.entries[slot] in v.inodes && LastName(v, v.entries[slot])
    ensures NoneElse(v, slot)
  {
    hide Local, AllReached;
    var id, g := v.entries[slot], ShapeOf(v);
    if id !in g.dirs {
      assert |Names(g, id)| == 1;
      assert slot in Names(g, id);
      forall s | s in v.entries && s != slot ensures v.entries[s] != id { OneElement(Names(g, id), slot, s); }
    }
  }

  lemma OneElement(a: set<Slot>, s: Slot, t: Slot)
    requires |a| == 1 && s in a && s != t
    ensures t !in a
  {
    assert |a - {s}| == 0;
  }

  lemma UnlinkLocal(v: View, slot: Slot)
    requires Local(v) && CanUnlink(v, slot) && v.entries[slot] != slot.dir && v.inodes[slot.dir].kind.Directory?
    requires LastName(v, v.entries[slot]) ==> NoneElse(v, slot)
    requires v.inodes[v.entries[slot]].kind.Directory? ==> v.inodes[slot.dir].links > 2
    ensures Local(Unlink(v, slot))
  {
    hide ValidName, ValidId, Target;
    var v' := Unlink(v, slot);
    forall x | x in v'.inodes ensures NodeOk(v', x, v'.inodes[x]) { assert NodeOk(v, x, v.inodes[x]); }
  }

  /** Removing a name of a file, or an empty directory, keeps the invariant. */
  lemma UnlinkVerified(v: View, slot: Slot)
    requires Verified(v) && slot in v.entries && Bare(ShapeOf(v), v.entries[slot])
    ensures CanUnlink(v, slot) && Verified(Unlink(v, slot))
  {
    hide Tree, Local, Links, ShapeOf, Bare;
    Named(v, slot);
    NotOwnParent(v, slot);
    var id, g, v' := v.entries[slot], ShapeOf(v), Unlink(v, slot);
    InShape(v, slot.dir);
    InShape(v, id);
    if LastName(v, id) { OnlyName(v, slot); }
    UnlinkLocal(v, slot);
    UnlinkShape(v, slot);
    TreePruned(g, slot);
    TreeSingle(g);
    forall x | x in v'.inodes ensures v'.inodes[x].links == Links(ShapeOf(v'), x) { LinksPruned(g, slot, x); }
  }

  lemma TreeSingle(g: Shape)
    requires Tree(g)
    ensures Single(g)
  {
  }

  /** Only directories hold entries. */
  lemma FileBare(v: View, id: Ident)
    requires Verified(v) && id !in Directories(v)
    ensures Bare(ShapeOf(v), id)
  {
    hide Local, Counted, AllReached;
  }

  // -- Move --

  lemma MoveParts(v: View, s: Slot, t: Slot)
    requires v.root.Some? && Local(v) && CanMove(v, s, t) && ValidName(t.name)
    requires v.inodes[v.entries[s]].kind.Directory? ==> v.inodes[s.dir].links > 2
    ensures Local(Move(v, s, t)) && ShapeOf(Move(v, s, t)) == Moved(ShapeOf(v), s, t)
  {
    hide ValidName, ValidId, Target, NodeOk, Readable;
    var v' := Move(v, s, t);
    assert Directories(v') == Directories(v);
    forall x | x in v'.inodes ensures NodeOk(v', x, v'.inodes[x]) { MovedNode(v, s, t, x); }
    assert Readable(v') by { MovedReadable(v, s, t); }
  }

  lemma MovedNode(v: View, s: Slot, t: Slot, x: Ident)
    requires CanMove(v, s, t) && x in v.inodes && NodeOk(v, x, v.inodes[x])
    requires v.inodes[v.entries[s]].kind.Directory? ==> v.inodes[s.dir].links > 2
    ensures x in Move(v, s, t).inodes && NodeOk(Move(v, s, t), x, Move(v, s, t).inodes[x])
  {
  }

  lemma MovedReadable(v: View, s: Slot, t: Slot)
    requires CanMove(v, s, t) && Readable(v)
    ensures Readable(Move(v, s, t))
  {
    hide Target;
  }

  lemma MoveLinks(v: View, s: Slot, t: Slot, x: Ident)
    requires v.root.Some? && CanMove(v, s, t) && x in v.inodes && v.inodes[x].links == Links(ShapeOf(v), x)
    requires v.inodes[s.dir].kind.Directory? && v.inodes[t.dir].kind.Directory?
    ensures Move(v, s, t).inodes[x].links == Links(Moved(ShapeOf(v), s, t), x)
  {
    hide Links, Moved;
    LinksMoved(ShapeOf(v), s, t, x);
  }

  lemma MoveReady(v: View, s: Slot, t: Slot)
    requires Verified(v) && s in v.entries && t !in v.entries && t.dir in v.inodes && v.inodes[t.dir].kind.Directory?
    requires ValidName(t.name)
    ensures CanMove(v, s, t) && v.inodes[s.dir].kind.Directory?
    ensures Local(Move(v, s, t)) && ShapeOf(Move(v, s, t)) == Moved(ShapeOf(v), s, t)
  {
    hide Tree, Local, Counted, ValidName;
    Named(v, s);
    MoveParts(v, s, t);
  }

  /** Renaming onto a free name keeps the invariant exactly when the child is a file or a
      directory that is not on the new parent's chain. */
  lemma MoveVerified(v: View, s: Slot, t: Slot, up: seq<Ident>)
    requires Verified(v) && s in v.entries && t !in v.entries && ValidName(t.name) && ChainTo(ShapeOf(v), up, t.dir)
    ensures CanMove(v, s, t)
    ensures Verified(Move(v, s, t)) <==> (v.entries[s] in Directories(v) ==> v.entries[s] !in up)
  {
    hide Tree, Local, Links, Directories, Moved, ChainTo, ValidName;
    var g := ShapeOf(v);
    LastIsDirectory(g, up, t.dir);
    InShape(v, t.dir);
    InShape(v, v.entries[s]);
    MoveReady(v, s, t);
    var v' := Move(v, s, t);
    if v.entries[s] in g.dirs && v.entries[s] in up {
      TreeSingle(g);
      MoveBelowSelf(g, s, t, up);
      MovedFrame(g, s, t);
      NotTree(Moved(g, s, t), v.entries[s]);
    } else {
      TreeMoved(g, s, t, up);
      forall x | x in v'.inodes ensures v'.inodes[x].links == Links(ShapeOf(v'), x) { MoveLinks(v, s, t, x); }
    }
  }

  lemma NotTree(g: Shape, d: Ident)
    requires d in g.dirs && !Reached(g, d)
    ensures !Tree(g)
  {
  }

  // -- Store --

  predicate CanStore(v: View, id: Ident, mode: nat, data: Bytes) {
    id in v.inodes && mode <= MODES && (v.inodes[id].kind.Directory? ==> data == [])
  }

  /** New content or a new mode keeps the invariant. */
  lemma StoreVerified(v: View, id: Ident, mode: nat, data: Bytes)
    requires Verified(v) && CanStore(v, id, mode, data) && (v.inodes[id].kind.Symlink? ==> Target(data).Some?)
    ensures Verified(Store(v, id, mode, data))
  {
    hide Tree, Links, ValidName, ValidId, Target;
    var v' := Store(v, id, mode, data);
    assert Directories(v') == Directories(v);
    assert ShapeOf(v') == ShapeOf(v);
    StoreLocal(v, id, mode, data);
  }

  lemma StoreLocal(v: View, id: Ident, mode: nat, data: Bytes)
    requires Local(v) && CanStore(v, id, mode, data) && (v.inodes[id].kind.Symlink? ==> Target(data).Some?)
    ensures Local(Store(v, id, mode, data))
  {
    hide ValidName, ValidId, Target;
  }

  // -- Initialization --

  const EMPTY_VIEW := View(None, map[], {}, map[], map[])

  function Initial(id: Ident): View {
    View(Some(id), map[id := Inode(Directory, 493, 2, 0)], {id}, map[], map[])
  }

  lemma InitialVerified(id: Ident)
    requires ValidId(id)
    ensures Verified(Initial(id))
  {
    hide ValidId;
    var g := ShapeOf(Initial(id));
    assert Directories(Initial(id)) == {id};
    assert ChainTo(g, [id], id);
    assert Subdirectories(g, id) == {};
  }
}
