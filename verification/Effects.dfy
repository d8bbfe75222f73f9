/** What an operation leaves of a World, record by record: which it adds, changes or takes
    away, and that every other stays (daemon/namespace.cpp). */
module Effects {
  import opened Bytes
  import opened Paths
  import opened DirectoryTree
  import opened Namespace
  import opened Walk
  import opened WalkLaws
  import opened Edits

  /** Taking a name away; an open file that loses its last name lives on as an orphan. */
  function Removed(w: World, slot: Slot, opens: set<Ident>): World
    requires CanUnlink(w.view, slot)
  {
    var id := w.view.entries[slot];
    var n := w.view.inodes[id];
    World(Unlink(w.view, slot),
          if LastName(w.view, id) && !n.kind.Directory? && id in opens && id in w.view.contents
          then w.orphans[id := Orphan(n.(links := 0), w.view.contents[id])] else w.orphans)
  }

  function Created(w: World, slot: Slot, id: Ident, kind: Kind, mode: nat, data: Bytes): World
    requires slot.dir in w.view.inodes
  {
    w.(view := Create(w.view, slot, id, kind, mode, data))
  }

  /** The record's side of losing a name: gone with the last one, else one link fewer. */
  function Lost(w: World, id: Ident, opens: set<Ident>): World
    requires id in w.view.inodes && w.view.inodes[id].links > 0
  {
    var n := w.view.inodes[id];
    if LastName(w.view, id) then
      World(w.view.(inodes := w.view.inodes - {id}, contents := w.view.contents - {id}),
            if !n.kind.Directory? && id in opens && id in w.view.contents
            then w.orphans[id := Orphan(n.(links := 0), w.view.contents[id])]
            else w.orphans)
    else w.(view := w.view.(inodes := Bump(w.view.inodes, id, -1)))
  }

  function Stored(w: World, id: Ident, mode: nat, data: Bytes): World
    requires id in w.view.inodes
  {
    w.(view := Store(w.view, id, mode, data))
  }

  /** Renaming onto itself, or onto another name of the same file, does nothing. */
  predicate Stays(v: View, s: Slot, d: Slot)
    requires s in v.entries
  {
    s == d || (d in v.entries && v.entries[d] == v.entries[s])
  }

  /** The target loses its name first; then the source moves to it. */
  function Renamed(w: World, s: Slot, d: Slot, opens: set<Ident>): World
    requires s in w.view.entries
  {
    if Stays(w.view, s, d) then w
    else
      var w' := if d in w.view.entries && CanUnlink(w.view, d) then Removed(w, d, opens) else w;
      if CanMove(w'.view, s, d) then w'.(view := Move(w'.view, s, d)) else w'
  }

  // ---- What changed and what did not ----

  ghost predicate SameBut<K(!new), V>(m: map<K, V>, m': map<K, V>, keys: set<K>) {
    forall k :: k !in keys ==> (k in m' <==> k in m) && (k in m ==> m'[k] == m[k])
  }

  /** The path leads to this inode. */
  ghost predicate Finds(v: View, path: Bytes, final: bool, id: Ident) {
    var f := Located(v, path, final, false);
    f.Found? && f.stack != [] && Last(f.stack) == id && id in v.inodes
  }

  /** One new entry with a new inode; a directory counts in its parent. */
  ghost predicate Added(w: World, w': World, slot: Slot, id: Ident, kind: Kind, mode: nat, data: Bytes) {
    var v, v' := w.view, w'.view;
    v'.root == v.root && w'.orphans == w.orphans && v'.taken == v.taken + {id} &&
    slot in v'.entries && v'.entries[slot] == id && SameBut(v.entries, v'.entries, {slot}) &&
    id in v'.inodes && v'.inodes[id] == Inode(kind, mode, if kind.Directory? then 2 else 1, |data|) &&
    SameBut(v.inodes, v'.inodes, {id, slot.dir}) && slot.dir in v.inodes && slot.dir in v'.inodes &&
    v'.inodes[slot.dir] == v.inodes[slot.dir].(links := v.inodes[slot.dir].links + if kind.Directory? then 1 else 0) &&
    (if kind.Directory? then v'.contents == v.contents
     else id in v'.contents && v'.contents[id] == data && SameBut(v.contents, v'.contents, {id}))
  }

  /** One file's bytes and size, and nothing else. */
  ghost predicate Rewritten(w: World, w': World, id: Ident, data: Bytes) {
    var v, v' := w.view, w'.view;
    v'.root == v.root && w'.orphans == w.orphans && v'.taken == v.taken && v'.entries == v.entries &&
    id in v.inodes && id in v'.inodes && v'.inodes[id] == v.inodes[id].(size := |data|) &&
    SameBut(v.inodes, v'.inodes, {id}) &&
    id in v'.contents && v'.contents[id] == data && SameBut(v.contents, v'.contents, {id})
  }

  /** One more name for an inode. */
  ghost predicate AddsName(w: World, w': World, slot: Slot, id: Ident) {
    var v, v' := w.view, w'.view;
    v'.root == v.root && w'.orphans == w.orphans && v'.taken == v.taken + {id} && v'.contents == v.contents &&
    slot in v'.entries && v'.entries[slot] == id && SameBut(v.entries, v'.entries, {slot}) &&
    id in v.inodes && id in v'.inodes && v'.inodes[id] == v.inodes[id].(links := v.inodes[id].links + 1) &&
    SameBut(v.inodes, v'.inodes, {id})
  }

  /** An inode lost a name. With the last one it goes, and its content with it; but an open
      file stays as it is among the orphans. */
  ghost predicate LosesName(w: World, w': World, id: Ident, opens: set<Ident>) {
    var v, v' := w.view, w'.view;
    id in v.inodes &&
    var n := v.inodes[id];
    if n.kind.Directory? || n.links == 1 then
      id !in v'.inodes && id !in v'.contents &&
      if !n.kind.Directory? && id in opens && id in v.contents then
        id in w'.orphans && w'.orphans[id] == Orphan(n.(links := 0), v.contents[id]) &&
        SameBut(w.orphans, w'.orphans, {id})
      else w'.orphans == w.orphans
    else
      n.links > 0 && id in v'.inodes && v'.inodes[id] == n.(links := n.links - 1) &&
      (id in v'.contents <==> id in v.contents) && (id in v.contents ==> v'.contents[id] == v.contents[id]) &&
      w'.orphans == w.orphans
  }

  /** One entry is gone, and its inode lost that name. */
  ghost predicate Unnamed(w: World, w': World, slot: Slot, opens: set<Ident>) {
    var v, v' := w.view, w'.view;
    slot in v.entries && v.entries[slot] in v.inodes &&
    var id := v.entries[slot];
    v'.root == v.root && v'.taken == v.taken && slot !in v'.entries && SameBut(v.entries, v'.entries, {slot}) &&
    LosesName(w, w', id, opens) &&
    SameBut(v.inodes, v'.inodes, {id, slot.dir}) && SameBut(v.contents, v'.contents, {id}) &&
    slot.dir in v.inodes && slot.dir in v'.inodes &&
    v'.inodes[slot.dir].links == v.inodes[slot.dir].links - (if v.inodes[id].kind.Directory? then 1 else 0) &&
    v'.inodes[slot.dir] == v.inodes[slot.dir].(links := v'.inodes[slot.dir].links)
  }

  /** An entry has a new file, and the inode it had lost that name. */
  ghost predicate Swapped(w: World, w': World, slot: Slot, id: Ident, mode: nat, data: Bytes, opens: set<Ident>) {
    var v, v' := w.view, w'.view;
    slot in v.entries && v.entries[slot] in v.inodes &&
    var gone := v.entries[slot];
    v'.root == v.root && v'.taken == v.taken + {id} &&
    slot in v'.entries && v'.entries[slot] == id && SameBut(v.entries, v'.entries, {slot}) &&
    id in v'.inodes && v'.inodes[id] == Inode(Regular, mode, 1, |data|) &&
    id in v'.contents && v'.contents[id] == data &&
    LosesName(w, w', gone, opens) &&
    SameBut(v.inodes, v'.inodes, {id, gone}) && SameBut(v.contents, v'.contents, {id, gone})
  }

  /** An entry moved; what was at its new place lost that name. A directory counts in its
      new parent instead of its old one. */
  ghost predicate Shifted(w: World, w': World, s: Slot, d: Slot, opens: set<Ident>) {
    var v, v' := w.view, w'.view;
    s in v.entries && v.entries[s] in v.inodes && s.dir in v.inodes && d.dir in v.inodes &&
    var id, over := v.entries[s], d in v.entries;
    var dir, gone := v.inodes[id].kind.Directory?, if over then {v.entries[d]} else {};
    v'.root == v.root && v'.taken == v.taken &&
    s !in v'.entries && d in v'.entries && v'.entries[d] == id && SameBut(v.entries, v'.entries, {s, d}) &&
    id in v'.inodes && v'.inodes[id] == v.inodes[id] && SameBut(v.contents, v'.contents, gone) &&
    SameBut(v.inodes, v'.inodes, gone + {s.dir, d.dir}) && s.dir in v'.inodes && d.dir in v'.inodes &&
    (if over then LosesName(w, w', v.entries[d], opens) else w'.orphans == w.orphans) &&
    (forall p :: p == s.dir || p == d.dir ==>
      v'.inodes[p] == v.inodes[p].(links := v'.inodes[p].links) &&
      v'.inodes[p].links == v.inodes[p].links - (if dir && p == s.dir then 1 else 0) +
        (if dir && p == d.dir && !over then 1 else 0))
  }

  // ---- The edits do that ----

  lemma CreatedAdds(w: World, slot: Slot, id: Ident, kind: Kind, mode: nat, data: Bytes)
    requires slot.dir in w.view.inodes && id != slot.dir
    ensures Added(w, Created(w, slot, id, kind, mode, data), slot, id, kind, mode, data)
  {
  }

  lemma StoredRewrites(w: World, id: Ident, data: Bytes)
    requires id in w.view.inodes && !w.view.inodes[id].kind.Directory?
    ensures Rewritten(w, Stored(w, id, w.view.inodes[id].mode, data), id, data)
  {
  }

  lemma LinkNames(w: World, slot: Slot, id: Ident)
    requires id in w.view.inodes
    ensures AddsName(w, w.(view := Link(w.view, slot, id)), slot, id)
  {
  }

  lemma RemovedUnnames(w: World, slot: Slot, opens: set<Ident>)
    requires CanUnlink(w.view, slot) && w.view.entries[slot] != slot.dir
    ensures Unnamed(w, Removed(w, slot, opens), slot, opens)
  {
  }

  lemma ReplacedSwaps(w: World, slot: Slot, id: Ident, mode: nat, data: Bytes, opens: set<Ident>)
    requires CanUnlink(w.view, slot) && w.view.entries[slot] != slot.dir && id !in w.view.inodes
    requires !w.view.inodes[w.view.entries[slot]].kind.Directory?
    ensures slot.dir in Removed(w, slot, opens).view.inodes
    ensures Swapped(w, Created(Removed(w, slot, opens), slot, id, Regular, mode, data), slot, id, mode, data, opens)
  {
  }

  /** The places and records of a rename are all different. */
  ghost predicate Clear(v: View, s: Slot, d: Slot) {
    s in v.entries && v.entries[s] in v.inodes && s.dir in v.inodes && d.dir in v.inodes && s != d &&
    v.entries[s] != s.dir && v.entries[s] != d.dir && v.inodes[s.dir].links > 1 && v.inodes[d.dir].links > 1 &&
    (d in v.entries ==>
      CanUnlink(v, d) && v.entries[d] != s.dir && v.entries[d] != d.dir && v.entries[d] != v.entries[s] &&
      v.inodes[v.entries[d]].kind.Directory? == v.inodes[v.entries[s]].kind.Directory?)
  }

  lemma RenamedShifts(w: World, s: Slot, d: Slot, opens: set<Ident>)
    requires Clear(w.view, s, d)
    ensures Shifted(w, Renamed(w, s, d, opens), s, d, opens)
  {
    hide Unlink, Move;
    if d in w.view.entries {
      RemovedUnnames(w, d, opens);
      ShiftedOver(w, Removed(w, d, opens), s, d, opens);
    } else {
      ShiftedFree(w, s, d, opens);
    }
  }

  lemma ShiftedFree(w: World, s: Slot, d: Slot, opens: set<Ident>)
    requires Clear(w.view, s, d) && d !in w.view.entries
    ensures CanMove(w.view, s, d) && Shifted(w, w.(view := Move(w.view, s, d)), s, d, opens)
  {
  }

  lemma ShiftedOver(w: World, w': World, s: Slot, d: Slot, opens: set<Ident>)
    requires Clear(w.view, s, d) && d in w.view.entries && Unnamed(w, w', d, opens)
    ensures CanMove(w'.view, s, d) && Shifted(w, w'.(view := Move(w'.view, s, d)), s, d, opens)
  {
  }

  // ---- What paths then lead to ----

  lemma AddedKeeps(w: World, w': World, slot: Slot, id: Ident, kind: Kind, mode: nat, data: Bytes)
    requires Added(w, w', slot, id, kind, mode, data) && slot !in w.view.entries && id !in w.view.inodes
    ensures KeepsAll(w.view, w'.view)
  {
  }

  lemma RewrittenKeeps(w: World, w': World, id: Ident, data: Bytes)
    requires Rewritten(w, w', id, data) && w.view.inodes[id].kind.Regular?
    ensures KeepsAll(w.view, w'.view)
  {
  }

  lemma NameKeeps(w: World, w': World, slot: Slot, id: Ident)
    requires AddsName(w, w', slot, id) && slot !in w.view.entries
    ensures KeepsAll(w.view, w'.view)
  {
  }

  lemma UnnamedShrinks(w: World, w': World, slot: Slot, opens: set<Ident>)
    requires Unnamed(w, w', slot, opens)
    ensures Shrinks(w.view, w'.view)
  {
  }

  lemma SwappedKeeps(w: World, w': World, slot: Slot, id: Ident, mode: nat, data: Bytes, opens: set<Ident>)
    requires Swapped(w, w', slot, id, mode, data, opens) && id !in w.view.inodes
    requires w.view.inodes[w.view.entries[slot]].kind.Regular?
    ensures KeepsTree(w.view, w'.view)
  {
  }

  /** A path to a free place leads to what was put there. */
  lemma AddedFound(w: World, w': World, path: Bytes, slot: Slot, id: Ident, kind: Kind, mode: nat, data: Bytes,
                   final: bool)
    requires Added(w, w', slot, id, kind, mode, data) && slot !in w.view.entries && id !in w.view.inodes
    requires Located(w.view, path, final, true) == Missing(slot) && !(final && kind.Symlink?)
    ensures Finds(w'.view, path, final, id)
  {
    hide Located, KeepsAll, KeepsTree;
    AddedKeeps(w, w', slot, id, kind, mode, data);
    assert KeepsTree(w.view, w'.view) by { AllTree(w.view, w'.view); }
    LocatedFilled(w.view, w'.view, path, slot, final, false);
  }

  lemma AllTree(v: View, v': View)
    requires KeepsAll(v, v')
    ensures KeepsTree(v, v')
  {
    hide KeepsTree;
  }

  lemma NameFound(w: World, w': World, path: Bytes, slot: Slot, id: Ident)
    requires AddsName(w, w', slot, id) && ParentOf(w.view, path).Some? && ParentOf(w.view, path).value.slot == slot
    requires slot !in w.view.entries
    ensures Finds(w'.view, path, false, id)
  {
    hide Located, ParentOf, KeepsAll, KeepsTree;
    NameKeeps(w, w', slot, id);
    AllTree(w.view, w'.view);
    ParentKept(w.view, w'.view, path);
    LocatedEntry(w'.view, path, false, false);
  }

  lemma SwappedFound(w: World, w': World, path: Bytes, id: Ident, mode: nat, data: Bytes, opens: set<Ident>)
    requires ParentOf(w.view, path).Some? && id !in w.view.inodes
    requires Swapped(w, w', ParentOf(w.view, path).value.slot, id, mode, data, opens)
    requires w.view.inodes[w.view.entries[ParentOf(w.view, path).value.slot]].kind.Regular?
    ensures Finds(w'.view, path, true, id) && Finds(w'.view, path, false, id)
  {
    hide Located, ParentOf, KeepsTree;
    SwappedKeeps(w, w', ParentOf(w.view, path).value.slot, id, mode, data, opens);
    ParentKept(w.view, w'.view, path);
    LocatedEntry(w'.view, path, true, false);
    LocatedEntry(w'.view, path, false, false);
  }
}
