/** The check of a whole World accepts exactly the verified ones (daemon/namespace.cpp, verify). */
module Verify {
  import opened Bytes
  import opened Paths
  import opened DirectoryTree
  import opened Namespace

  /** What the walk has met: directories, the entries that led on, files, and how often
      each child was named. */
  datatype Seen = Seen(directories: set<Ident>, slots: set<Slot>, files: set<Ident>, references: map<Ident, nat>)

  // ---- Record checks ----

  /** An inode record that decodes, with its allocation. */
  predicate Decodes(v: View, id: Ident) {
    id in v.inodes && v.inodes[id].mode <= MODES && v.inodes[id].links > 0 && id in v.taken &&
    (v.inodes[id].kind.Directory? ==> v.inodes[id].links >= 2 && v.inodes[id].size == 0)
  }

  ghost predicate FileOk(v: View, id: Ident) {
    Decodes(v, id) && !v.inodes[id].kind.Directory? && id in v.contents && |v.contents[id]| == v.inodes[id].size &&
    (v.inodes[id].kind.Symlink? ==> Target(v.contents[id]).Some?)
  }

  ghost predicate DirectoryOk(v: View, id: Ident) {
    Decodes(v, id) && v.inodes[id].kind.Directory?
  }

  function Count(references: map<Ident, nat>, id: Ident): nat {
    if id in references then references[id] else 0
  }

  /** The entries met so far that name this child. */
  ghost function NamesSeen(v: View, slots: set<Slot>, id: Ident): set<Slot> {
    set s | s in slots && s in v.entries && v.entries[s] == id
  }

  // ---- What the walk keeps true ----

  ghost predicate EntrySeen(v: View, st: Seen, s: Slot)
    requires v.root.Some?
  {
    s in v.entries && s.dir in st.directories && ValidName(s.name) && v.entries[s] != v.root.value &&
    (v.entries[s] in st.directories || v.entries[s] in st.files)
  }

  ghost predicate Led(v: View, st: Seen, d: Ident)
    requires v.root.Some?
  {
    d == v.root.value || exists s :: s in st.slots && s in v.entries && v.entries[s] == d
  }

  ghost predicate SlotsOk(v: View, st: Seen)
    requires v.root.Some?
  {
    (forall s :: s in st.slots ==> EntrySeen(v, st, s)) &&
    (forall s, t ::
      s in st.slots && t in st.slots && s in v.entries && t in v.entries &&
      v.entries[s] == v.entries[t] && v.entries[s] in st.directories ==>
      s == t)
  }

  ghost predicate NodesOk(v: View, st: Seen)
    requires v.root.Some?
  {
    (forall d :: d in st.directories ==> DirectoryOk(v, d) && Reached(ShapeOf(v), d) && Led(v, st, d)) &&
    (forall f :: f in st.files ==> FileOk(v, f))
  }

  ghost predicate CountsOk(v: View, st: Seen) {
    forall id :: Count(st.references, id) == |NamesSeen(v, st.slots, id)|
  }

  ghost predicate SeenOk(v: View, st: Seen) {
    v.root.Some? && SlotsOk(v, st) && NodesOk(v, st) && CountsOk(v, st)
  }

  /** A finished directory has had every entry followed and its link count compared. */
  ghost predicate Finished(v: View, st: Seen, d: Ident)
    requires v.root.Some?
  {
    (forall s :: s in v.entries && s.dir == d ==> s in st.slots) && d in v.inodes &&
    v.inodes[d].links == 2 + |Subdirectories(ShapeOf(v), d)|
  }

  ghost predicate FinishedBut(v: View, st: Seen, open: set<Ident>)
    requires v.root.Some?
  {
    forall d :: d in st.directories && d !in open ==> Finished(v, st, d)
  }

  ghost predicate Grows(st: Seen, st': Seen) {
    st.directories <= st'.directories && st.slots <= st'.slots && st.files <= st'.files
  }

  /** Entries of directories met before are untouched, but for the one being followed. */
  ghost predicate Apart(st: Seen, st': Seen, at: set<Slot>) {
    forall s :: s in st'.slots && s !in st.slots && s !in at ==> s.dir !in st.directories
  }

  // ---- One child ----

  /** Noting a child through an entry. */
  function Noted(v: View, st: Seen, s: Slot, id: Ident, directory: bool): Seen {
    Seen(if directory then st.directories + {id} else st.directories, st.slots + {s},
         if directory then st.files else st.files + {id}, st.references[id := Count(st.references, id) + 1])
  }

  lemma CountsNoted(v: View, st: Seen, s: Slot, id: Ident, directory: bool)
    requires CountsOk(v, st) && s !in st.slots && s in v.entries && v.entries[s] == id
    ensures CountsOk(v, Noted(v, st, s, id, directory))
  {
    var st' := Noted(v, st, s, id, directory);
    forall x ensures Count(st'.references, x) == |NamesSeen(v, st'.slots, x)| {
      if x == id {
        assert NamesSeen(v, st'.slots, x) == NamesSeen(v, st.slots, x) + {s};
      } else {
        assert NamesSeen(v, st'.slots, x) == NamesSeen(v, st.slots, x);
      }
    }
  }

  lemma SlotsNoted(v: View, st: Seen, s: Slot, id: Ident, directory: bool)
    requires v.root.Some? && SlotsOk(v, st) && s !in st.slots && s in v.entries && v.entries[s] == id
    requires id != v.root.value
    requires s.dir in st.directories && ValidName(s.name) && id !in st.directories
    requires forall t :: t in st.slots && t in v.entries && v.entries[t] == id ==> !directory
    ensures SlotsOk(v, Noted(v, st, s, id, directory))
  {
    hide ValidName;
  }

  lemma NodesNoted(v: View, st: Seen, s: Slot, id: Ident, directory: bool)
    requires v.root.Some? && NodesOk(v, st) && s in v.entries && v.entries[s] == id && s.dir in st.directories
    requires if directory then DirectoryOk(v, id) else FileOk(v, id)
    ensures NodesOk(v, Noted(v, st, s, id, directory))
  {
    hide DirectoryOk, FileOk, Reached, ShapeOf;
    var st' := Noted(v, st, s, id, directory);
    forall d | d in st.directories ensures Led(v, st', d) { LedMore(v, st, st', d); }
    if directory {
      assert s in st'.slots;
      ReachedBy(v, s, id);
    }
  }

  lemma LedMore(v: View, st: Seen, st': Seen, d: Ident)
    requires v.root.Some? && Led(v, st, d) && st.slots <= st'.slots
    ensures Led(v, st', d)
  {
  }

  lemma ReachedBy(v: View, s: Slot, id: Ident)
    requires v.root.Some? && s in v.entries && v.entries[s] == id && Reached(ShapeOf(v), s.dir) && DirectoryOk(v, id)
    ensures Reached(ShapeOf(v), id)
  {
    hide Reached;
    InShape(v, id);
    NewReached(ShapeOf(v), s, id);
  }

  /** A child directory not met before: no entry met so far names it. */
  lemma NotNamedYet(v: View, st: Seen, id: Ident)
    requires SeenOk(v, st) && id !in st.directories && id in v.inodes && v.inodes[id].kind.Directory?
    ensures forall t :: t in st.slots && t in v.entries ==> v.entries[t] != id
  {
    hide DirectoryOk, Reached, ShapeOf, CountsOk;
  }

  lemma NotedOk(v: View, st: Seen, s: Slot, id: Ident, directory: bool)
    requires SeenOk(v, st) && s !in st.slots && s in v.entries && v.entries[s] == id && id != v.root.value
    requires s.dir in st.directories && ValidName(s.name)
    requires id !in st.directories && (if directory then DirectoryOk(v, id) else FileOk(v, id))
    ensures SeenOk(v, Noted(v, st, s, id, directory))
  {
    hide SlotsOk, NodesOk, CountsOk, ValidName;
    CountsNoted(v, st, s, id, directory);
    if directory { NotNamedYet(v, st, id) ; }
    SlotsNoted(v, st, s, id, directory);
    NodesNoted(v, st, s, id, directory);
  }

  // ---- Why a check can fail ----

  lemma VerifiedDecodes(v: View, id: Ident)
    requires Verified(v) && id in v.inodes
    ensures Decodes(v, id) && (v.inodes[id].kind.Directory? ==> DirectoryOk(v, id))
    ensures (!v.inodes[id].kind.Directory? ==> FileOk(v, id))
  {
    hide Tree, ValidName, ValidId;
    assert NodeOk(v, id, v.inodes[id]);
    InShape(v, id);
  }

  lemma VerifiedEntry(v: View, s: Slot)
    requires Verified(v) && s in v.entries
    ensures v.entries[s] in v.inodes && ValidName(s.name)
  {
    hide Tree, Counted, ValidName;
  }

  /** In a verified World an entry not yet followed leads to no directory met before. */
  lemma VerifiedOnce(v: View, st: Seen, s: Slot)
    requires Verified(v) && SeenOk(v, st) && s in v.entries && s !in st.slots && v.entries[s] in v.inodes
    requires v.inodes[v.entries[s]].kind.Directory?
    ensures v.entries[s] !in st.directories
  {
    hide Local, Counted, AllReached, Reached, DirectoryOk, FileOk, CountsOk;
    InShape(v, v.entries[s]);
  }

  // ---- The walk ----

  ghost function SlotsOf(v: View, d: Ident): set<Slot> {
    set s | s in v.entries && s.dir == d
  }

  function NamesOf(v: View, d: Ident): set<Name> {
    set s | s in v.entries && s.dir == d :: s.name
  }

  ghost function Followed(d: Ident, names: seq<Name>): set<Slot> {
    set n | n in names :: Slot(d, n)
  }

  ghost function SubFollowed(v: View, d: Ident, names: seq<Name>): set<Slot> {
    set s | s in Followed(d, names) && s in v.entries && v.entries[s] in Directories(v)
  }

  /** The state between two entries of a directory. */
  ghost predicate Between(v: View, st: Seen, cur: Seen, id: Ident, done: seq<Name>, open: set<Ident>) {
    SeenOk(v, cur) && Grows(st, cur) && FinishedBut(v, cur, open + {id}) && id in cur.directories &&
    (forall s :: s in cur.slots && s.dir == id ==> s.name in done) &&
    (forall n :: n in done ==> Slot(id, n) in cur.slots) &&
    Apart(st, cur, Followed(id, done))
  }

  lemma FollowedSnoc(d: Ident, names: seq<Name>, n: Name)
    ensures Followed(d, names + [n]) == Followed(d, names) + {Slot(d, n)}
  {
    var a := Followed(d, names + [n]);
    forall s | s in Followed(d, names) + {Slot(d, n)} ensures s in a { assert s.name in names + [n]; }
  }

  lemma SubStep(v: View, d: Ident, names: seq<Name>, n: Name)
    requires n !in names && Slot(d, n) in v.entries
    ensures |SubFollowed(v, d, names + [n])| ==
      |SubFollowed(v, d, names)| + if v.entries[Slot(d, n)] in Directories(v) then 1 else 0
  {
    hide Directories;
    FollowedSnoc(d, names, n);
    var s := Slot(d, n);
    assert s !in Followed(d, names);
    assert SubFollowed(v, d, names + [n]) ==
      SubFollowed(v, d, names) + if v.entries[s] in Directories(v) then {s} else {};
  }

  /** Following an entry to a file. */
  lemma FileStep(v: View, st: Seen, cur: Seen, id: Ident, done: seq<Name>, n: Name, open: set<Ident>)
    requires Between(v, st, cur, id, done, open) && n !in done && Slot(id, n) in v.entries && ValidName(n)
    requires id in st.directories
    requires FileOk(v, v.entries[Slot(id, n)]) && v.entries[Slot(id, n)] != v.root.value
    requires v.entries[Slot(id, n)] !in cur.directories
    ensures Between(v, st, Noted(v, cur, Slot(id, n), v.entries[Slot(id, n)], false), id, done + [n], open)
  {
    hide SeenOk, FileOk, ValidName, Finished;
    var s := Slot(id, n);
    var next := Noted(v, cur, s, v.entries[s], false);
    assert s !in cur.slots;
    NotedOk(v, cur, s, v.entries[s], false);
    FollowedSnoc(id, done, n);
    assert v.root.Some? by { RootKnown(v, cur); }
    forall d | d in next.directories && d !in open + {id} ensures Finished(v, next, d) {
      FinishedMore(v, cur, next, d);
    }
  }

  lemma RootKnown(v: View, st: Seen)
    requires SeenOk(v, st)
    ensures v.root.Some?
  {
  }

  lemma FinishedMore(v: View, st: Seen, st': Seen, d: Ident)
    requires v.root.Some? && Finished(v, st, d) && st.slots <= st'.slots
    ensures Finished(v, st', d)
  {
    hide Subdirectories;
  }

  /** Before descending: the child directory is noted and open. */
  lemma DescendReady(v: View, st: Seen, cur: Seen, id: Ident, done: seq<Name>, n: Name, open: set<Ident>)
    requires Between(v, st, cur, id, done, open) && n !in done && Slot(id, n) in v.entries && ValidName(n)
    requires DirectoryOk(v, v.entries[Slot(id, n)]) && v.entries[Slot(id, n)] !in cur.directories && v.root.Some?
    requires v.root.value in cur.directories
    ensures var child := v.entries[Slot(id, n)]; var next := Noted(v, cur, Slot(id, n), child, true);
      SeenOk(v, next) && FinishedBut(v, next, open + {id} + {child}) &&
      (forall s :: s in next.slots ==> s.dir != child) && child in next.directories
  {
    hide DirectoryOk, ValidName, Finished, NodesOk, CountsOk;
    var s := Slot(id, n);
    var child := v.entries[s];
    var next := Noted(v, cur, s, child, true);
    assert s !in cur.slots;
    NotedOk(v, cur, s, child, true);
    forall d | d in next.directories && d !in open + {id} + {child} ensures Finished(v, next, d) {
      FinishedMore(v, cur, next, d);
    }
  }

  /** After it: everything below the child is done. */
  lemma DescendDone(v: View, st: Seen, cur: Seen, next: Seen, after: Seen, id: Ident, done: seq<Name>, n: Name,
                    open: set<Ident>)
    requires Between(v, st, cur, id, done, open) && n !in done && Slot(id, n) in v.entries && id in st.directories
    requires next == Noted(v, cur, Slot(id, n), v.entries[Slot(id, n)], true) && v.entries[Slot(id, n)] != id
    requires v.entries[Slot(id, n)] !in cur.directories
    requires SeenOk(v, after) && Grows(next, after) && FinishedBut(v, after, open + {id})
    requires Apart(next, after, SlotsOf(v, v.entries[Slot(id, n)]))
    ensures Between(v, st, after, id, done + [n], open)
  {
    hide SeenOk, FinishedBut;
    FollowedSnoc(id, done, n);
    var child := v.entries[Slot(id, n)];
    forall s | s in after.slots && s.dir == id ensures s.name in done + [n] {
      assert s in next.slots;
    }
    forall s | s in after.slots && s !in st.slots && s !in Followed(id, done + [n]) ensures s.dir !in st.directories {
      if s !in next.slots { assert s.dir !in next.directories || s.dir == child; }
    }
  }

  lemma ListedSlots(v: View, d: Ident, names: seq<Name>)
    requires forall n :: n in names <==> n in NamesOf(v, d)
    ensures (forall n :: n in names ==> Slot(d, n) in v.entries)
    ensures (forall s :: s in v.entries && s.dir == d ==> s.name in names)
    ensures v.root.Some? ==> SubFollowed(v, d, names) == Subdirectories(ShapeOf(v), d)
  {
    hide Directories;
    forall s | s in v.entries && s.dir == d ensures s in Followed(d, names) {
      assert s.name in NamesOf(v, d);
      assert s == Slot(d, s.name);
    }
  }

  lemma NoneFollowed(v: View, st: Seen, id: Ident, open: set<Ident>)
    requires SeenOk(v, st) && id in st.directories && FinishedBut(v, st, open + {id})
    requires (forall s :: s in st.slots ==> s.dir != id)
    ensures Between(v, st, st, id, [], open) && SubFollowed(v, id, []) == {}
  {
    hide SeenOk, FinishedBut;
  }

  lemma ExpandDone(v: View, st: Seen, cur: Seen, id: Ident, names: seq<Name>, open: set<Ident>)
    requires Between(v, st, cur, id, names, open) && v.root.Some? && id in v.inodes
    requires v.inodes[id].links == 2 + |Subdirectories(ShapeOf(v), id)|
    requires forall s :: s in v.entries && s.dir == id ==> s.name in names
    requires forall n :: n in names ==> Slot(id, n) in v.entries
    ensures SeenOk(v, cur) && Grows(st, cur) && FinishedBut(v, cur, open) && Apart(st, cur, SlotsOf(v, id))
  {
    hide SeenOk, Subdirectories, ShapeOf;
    forall s | s in v.entries && s.dir == id ensures s in cur.slots { assert s == Slot(id, s.name); }
    forall s | s in Followed(id, names) ensures s in SlotsOf(v, id) { }
  }

  lemma Fewer(v: View, st: Seen, next: Seen, child: Ident)
    requires st.directories <= next.directories && child in next.directories && child !in st.directories
    requires child in v.inodes
    ensures |v.inodes.Keys - next.directories| < |v.inodes.Keys - st.directories|
  {
    var a, b := v.inodes.Keys - next.directories, v.inodes.Keys - st.directories;
    assert a <= b - {child};
    SubsetSize(a, b - {child});
  }

  /** Follows every entry of a directory already noted, and everything below it. */
  method Expand(v: View, id: Ident, st: Seen, ghost open: set<Ident>) returns (ok: bool, cur: Seen)
    requires SeenOk(v, st) && id in st.directories && FinishedBut(v, st, open + {id})
    requires (forall s :: s in st.slots ==> s.dir != id)
    requires v.root.Some? && v.root.value in st.directories && DirectoryOk(v, id)
    ensures ok ==> SeenOk(v, cur) && Grows(st, cur) && FinishedBut(v, cur, open) && Apart(st, cur, SlotsOf(v, id))
    ensures !ok ==> !Verified(v)
    decreases |v.inodes.Keys - st.directories|
  {
    hide Verified, SeenOk, FinishedBut, Subdirectories, ShapeOf, Directories, ValidName, SubFollowed, FileOk,
         SortedKeys, Less, Target, SlotsOf;
    cur := st;
    var names := ListKeys(NamesOf(v, id));
    var subdirs := 0;
    ListedSlots(v, id, names);
    NoneFollowed(v, st, id, open);
    for i := 0 to |names|
      invariant Between(v, st, cur, id, names[..i], open) && subdirs == |SubFollowed(v, id, names[..i])|
    {
      var n := names[i];
      NotYet(names, i);
      assert n in names && names[..i + 1] == names[..i] + [n];
      var slot := Slot(id, n);
      var child := v.entries[slot];
      if !ValidName(n) || child !in v.inodes { NotVerifiedEntry(v, slot); return false, cur; }
      SubStep(v, id, names[..i], n);
      DirectoryKind(v, child);
      if v.inodes[child].kind.Directory? {
        subdirs := subdirs + 1;
        if child in cur.directories { NotVerifiedTwice(v, cur, slot); return false, cur; }
        if !Decodes(v, child) { NotVerifiedNode(v, child); return false, cur; }
        DescendReady(v, st, cur, id, names[..i], n, open);
        var next := Noted(v, cur, slot, child, true);
        Fewer(v, st, next, child);
        var good, after := Expand(v, child, next, open + {id});
        if !good { return false, after; }
        DescendDone(v, st, cur, next, after, id, names[..i], n, open);
        cur := after;
      } else {
        var good := CheckFile(v, child);
        if !good { NotVerifiedNode(v, child); return false, cur; }
        FilesApart(v, cur, child);
        FileStep(v, st, cur, id, names[..i], n, open);
        cur := Noted(v, cur, slot, child, false);
      }
    }
    assert names[..|names|] == names;
    if v.inodes[id].links != 2 + subdirs { NotVerifiedLinks(v, id); return false, cur; }
    ExpandDone(v, st, cur, id, names, open);
    return true, cur;
  }

  lemma NotYet(names: seq<Name>, i: nat)
    requires Sorted(names) && i < |names|
    ensures names[i] !in names[..i]
  {
    hide Less;
    forall j | 0 <= j < i ensures names[j] != names[i] { LessIrreflexive(names[i]); }
  }

  lemma DirectoryKind(v: View, id: Ident)
    ensures id in Directories(v) <==> id in v.inodes && v.inodes[id].kind.Directory?
  {
  }

  method CheckFile(v: View, id: Ident) returns (ok: bool)
    requires id in v.inodes && !v.inodes[id].kind.Directory?
    ensures ok <==> FileOk(v, id)
  {
    hide Target;
    if !Decodes(v, id) || id !in v.contents || |v.contents[id]| != v.inodes[id].size { return false; }
    if v.inodes[id].kind.Symlink? {
      var names := ParseTarget(v.contents[id]);
      return names.Some?;
    }
    return true;
  }

  /** Directories met are directories, so a file is none of them, nor the root. */
  lemma FilesApart(v: View, st: Seen, id: Ident)
    requires SeenOk(v, st) && id in v.inodes && !v.inodes[id].kind.Directory?
    ensures id !in st.directories
  {
    hide Reached, ShapeOf, SlotsOk, CountsOk, FileOk;
  }

  lemma NotVerifiedEntry(v: View, s: Slot)
    requires s in v.entries && (!ValidName(s.name) || v.entries[s] !in v.inodes)
    ensures !Verified(v)
  {
    hide Verified, ValidName;
    if Verified(v) { VerifiedEntry(v, s); }
  }

  lemma NotVerifiedTwice(v: View, st: Seen, s: Slot)
    requires SeenOk(v, st) && s in v.entries && s !in st.slots && v.entries[s] in v.inodes
    requires v.inodes[v.entries[s]].kind.Directory? && v.entries[s] in st.directories
    ensures !Verified(v)
  {
    hide Verified, SeenOk;
    if Verified(v) { VerifiedOnce(v, st, s); }
  }

  lemma NotVerifiedNode(v: View, id: Ident)
    requires id in v.inodes && (!Decodes(v, id) || (!v.inodes[id].kind.Directory? && !FileOk(v, id)))
    ensures !Verified(v)
  {
    hide Verified, Decodes, FileOk;
    if Verified(v) { VerifiedDecodes(v, id); }
  }

  lemma NotVerifiedLinks(v: View, id: Ident)
    requires v.root.Some? && DirectoryOk(v, id) && v.inodes[id].links != 2 + |Subdirectories(ShapeOf(v), id)|
    ensures !Verified(v)
  {
    hide Tree, Local, Subdirectories;
    InShape(v, id);
  }

  // ---- The whole check ----

  function RootSeen(v: View): Seen
    requires v.root.Some?
  {
    Seen({v.root.value}, {}, {}, map[])
  }

  lemma RootSeenOk(v: View)
    requires v.root.Some? && DirectoryOk(v, v.root.value)
    ensures SeenOk(v, RootSeen(v)) && FinishedBut(v, RootSeen(v), {} + {v.root.value})
  {
    var g := ShapeOf(v);
    InShape(v, v.root.value);
    assert ChainTo(g, [v.root.value], v.root.value);
    forall id ensures Count(map[], id) == |NamesSeen(v, {}, id)| { assert NamesSeen(v, {}, id) == {}; }
  }

  predicate NothingLeft(v: View, st: Seen) {
    v.inodes.Keys == st.directories + st.files && v.contents.Keys == st.files && v.entries.Keys == st.slots &&
    (forall id :: id in v.taken ==> ValidId(id)) &&
    forall f :: f in st.files ==> f in v.inodes && v.inodes[f].links == Count(st.references, f)
  }

  lemma AllSeenTree(v: View, st: Seen)
    requires SeenOk(v, st) && v.inodes.Keys == st.directories + st.files && v.entries.Keys == st.slots
    requires v.root.value in st.directories
    ensures Tree(ShapeOf(v)) && Directories(v) == st.directories
  {
    hide Reached, CountsOk, ValidName, Target;
    assert Directories(v) == st.directories;
  }

  lemma AllSeenLocal(v: View, st: Seen)
    requires SeenOk(v, st) && NothingLeft(v, st)
    ensures Local(v)
  {
    hide Reached, CountsOk, ValidName, Target, ValidId, ShapeOf;
    forall id | id in v.inodes ensures NodeOk(v, id, v.inodes[id]) {
      if id in st.directories { assert DirectoryOk(v, id); FilesNot(v, st, id); } else { assert FileOk(v, id); }
    }
    forall id | id in v.inodes && v.inodes[id].kind.Symlink? ensures Target(v.contents[id]).Some? {
      if id in st.directories { assert DirectoryOk(v, id); } else { assert FileOk(v, id); }
    }
  }

  lemma FilesNot(v: View, st: Seen, id: Ident)
    requires SeenOk(v, st) && id in st.directories
    ensures id !in st.files
  {
    hide Reached, CountsOk, ShapeOf, SlotsOk;
  }

  lemma AllSeenCounted(v: View, st: Seen)
    requires SeenOk(v, st) && NothingLeft(v, st) && FinishedBut(v, st, {}) && Directories(v) == st.directories
    ensures Counted(v)
  {
    hide SlotsOk, NodesOk, ValidId, Subdirectories;
    forall id | id in v.inodes ensures v.inodes[id].links == Links(ShapeOf(v), id) {
      if id in st.directories {
        assert Finished(v, st, id);
      } else {
        assert NamesSeen(v, st.slots, id) == Names(ShapeOf(v), id);
      }
    }
  }

  lemma Accepted(v: View, st: Seen)
    requires SeenOk(v, st) && FinishedBut(v, st, {}) && v.root.Some? && v.root.value in st.directories
    requires NothingLeft(v, st)
    ensures Verified(v)
  {
    hide SeenOk, FinishedBut, NothingLeft, Tree, Local, Counted;
    assert v.inodes.Keys == st.directories + st.files && v.entries.Keys == st.slots by { LeftParts(v, st); }
    AllSeenTree(v, st);
    AllSeenLocal(v, st);
    AllSeenCounted(v, st);
  }

  lemma LeftParts(v: View, st: Seen)
    requires NothingLeft(v, st)
    ensures v.inodes.Keys == st.directories + st.files && v.entries.Keys == st.slots
  {
    hide ValidId;
  }

  /** A finished walk has met every reachable directory. */
  lemma {:induction false} ChainSeen(v: View, st: Seen, path: seq<Ident>)
    requires SeenOk(v, st) && FinishedBut(v, st, {}) && v.root.value in st.directories && Chain(ShapeOf(v), path)
    ensures path[|path| - 1] in st.directories
  {
    hide CountsOk, Reached, ValidName, Target, Subdirectories;
    if |path| > 1 {
      var n := |path| - 1;
      ChainPrefix(ShapeOf(v), path, n);
      ChainSeen(v, st, path[..n]);
      assert Edge(ShapeOf(v), path[n - 1], path[n]);
      var s :| s in v.entries && s.dir == path[n - 1] && v.entries[s] == path[n];
      assert Finished(v, st, path[n - 1]);
      assert EntrySeen(v, st, s);
      InShape(v, path[n]);
    }
  }

  lemma Complete(v: View, st: Seen)
    requires Verified(v) && SeenOk(v, st) && FinishedBut(v, st, {}) && v.root.value in st.directories
    ensures NothingLeft(v, st)
  {
    hide SeenOk, FinishedBut, Local, Counted, Tree, ValidId;
    forall d | d in Directories(v) ensures d in st.directories { DirectorySeen(v, st, d); }
    forall s | s in v.entries ensures s in st.slots { SlotSeen(v, st, s); }
    forall id | id in v.inodes && id !in Directories(v) ensures id in st.files { FileSeen(v, st, id); }
    SeenExist(v, st);
    LocalParts(v);
    forall f | f in st.files ensures v.inodes[f].links == Count(st.references, f) { FileLinks(v, st, f); }
  }

  lemma DirectorySeen(v: View, st: Seen, d: Ident)
    requires Verified(v) && SeenOk(v, st) && FinishedBut(v, st, {}) && v.root.value in st.directories
    requires d in Directories(v)
    ensures d in st.directories
  {
    hide SeenOk, FinishedBut, Local, Counted, Single, Chain;
    assert Reached(ShapeOf(v), d);
    var path :| ChainTo(ShapeOf(v), path, d);
    ChainNonempty(ShapeOf(v), path);
    ChainSeen(v, st, path);
  }

  lemma SlotSeen(v: View, st: Seen, s: Slot)
    requires Verified(v) && SeenOk(v, st) && FinishedBut(v, st, {}) && v.root.value in st.directories && s in v.entries
    ensures s in st.slots
  {
    hide SeenOk, Local, Counted, AllReached, Subdirectories;
    DirectorySeen(v, st, s.dir);
    assert Finished(v, st, s.dir);
  }

  lemma FileSeen(v: View, st: Seen, id: Ident)
    requires Verified(v) && SeenOk(v, st) && FinishedBut(v, st, {}) && v.root.value in st.directories
    requires id in v.inodes && id !in Directories(v)
    ensures id in st.files
  {
    hide FinishedBut, Tree, NodesOk, CountsOk, ValidName, ValidId, Target;
    assert NodeOk(v, id, v.inodes[id]);
    assert Names(ShapeOf(v), id) != {};
    var s :| s in Names(ShapeOf(v), id);
    SlotSeen(v, st, s);
    assert EntrySeen(v, st, s);
    DirectoriesReal(v, st);
  }

  lemma DirectoriesReal(v: View, st: Seen)
    requires SeenOk(v, st)
    ensures st.directories <= Directories(v)
  {
    hide Reached, ShapeOf, SlotsOk, CountsOk;
  }

  lemma SeenExist(v: View, st: Seen)
    requires SeenOk(v, st)
    ensures st.directories <= Directories(v)
    ensures (forall f :: f in st.files ==> f in v.inodes && f !in Directories(v) && f in v.contents)
    ensures st.slots <= v.entries.Keys
  {
    hide Reached, ShapeOf, CountsOk, ValidName, Target;
  }

  lemma LocalParts(v: View)
    requires Verified(v)
    ensures (forall id :: id in v.taken ==> ValidId(id)) && v.contents.Keys == v.inodes.Keys - Directories(v)
  {
    hide Tree, Counted, ValidName, ValidId;
    forall id | id in v.inodes ensures id in v.contents <==> id !in Directories(v) {
      assert NodeOk(v, id, v.inodes[id]);
    }
  }

  lemma FileLinks(v: View, st: Seen, f: Ident)
    requires Verified(v) && SeenOk(v, st) && FinishedBut(v, st, {}) && v.root.value in st.directories && f in st.files
    ensures f in v.inodes && v.inodes[f].links == Count(st.references, f)
  {
    hide FinishedBut, Tree, Local, SlotsOk, NodesOk;
    SeenExist(v, st);
    forall s | s in v.entries ensures s in st.slots { SlotSeen(v, st, s); }
    assert NamesSeen(v, st.slots, f) == Names(ShapeOf(v), f);
  }

  /** The check accepts a World exactly when it is verified. */
  method Check(v: View) returns (ok: bool)
    ensures ok <==> Verified(v)
  {
    hide Verified, SeenOk, FinishedBut, NothingLeft;
    if v.root.None? { NoRoot(v); return false; }
    var root := v.root.value;
    if root !in v.inodes || !v.inodes[root].kind.Directory? { BadRoot(v); return false; }
    if !Decodes(v, root) { NotVerifiedNode(v, root); return false; }
    RootSeenOk(v);
    var good, st := Expand(v, root, RootSeen(v), {});
    if !good { return false; }
    if Verified(v) { Complete(v, st); }
    ok := NothingLeft(v, st);
    if ok { Accepted(v, st); }
  }

  lemma NoRoot(v: View)
    requires v.root.None?
    ensures !Verified(v)
  {
  }

  lemma BadRoot(v: View)
    requires v.root.Some? && (v.root.value !in v.inodes || !v.inodes[v.root.value].kind.Directory?)
    ensures !Verified(v)
  {
    hide Local, Counted, AllReached;
    InShape(v, v.root.value);
  }
}
