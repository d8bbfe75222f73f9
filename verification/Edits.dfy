/** A World as an operation sees it, and the changes an operation commits
    (daemon/namespace.cpp). Committing lays the changes over the view. */
module Edits {
  import opened Bytes
  import opened DirectoryTree
  import opened Namespace

  datatype Orphan = Orphan(inode: Inode, content: Bytes)

  /** A World's tree and its unlinked but open files. */
  datatype World = World(view: View, orphans: map<Ident, Orphan>)

  datatype Changes = Changes(root: Option<Ident>, inodes: map<Ident, Option<Inode>>, taken: set<Ident>,
                             contents: map<Ident, Option<Bytes>>, entries: map<Slot, Option<Ident>>,
                             orphans: map<Ident, Option<Orphan>>)

  const NOTHING := Changes(None, map[], {}, map[], map[], map[])

  function Laid<K, V>(m: map<K, V>, c: map<K, Option<V>>): map<K, V> {
    map k | k in m.Keys + c.Keys && (k in c ==> c[k].Some?) :: if k in c then c[k].value else m[k]
  }

  /** The World after a commit. */
  function Apply(w: World, c: Changes): World {
    World(View(if c.root.Some? then c.root else w.view.root, Laid(w.view.inodes, c.inodes), w.view.taken + c.taken,
               Laid(w.view.contents, c.contents), Laid(w.view.entries, c.entries)),
          Laid(w.orphans, c.orphans))
  }

  lemma LaidPut<K, V>(m: map<K, V>, c: map<K, Option<V>>, k: K, x: V)
    ensures Laid(m, c[k := Some(x)]) == Laid(m, c)[k := x]
  {
  }

  lemma LaidDrop<K, V>(m: map<K, V>, c: map<K, Option<V>>, k: K)
    ensures Laid(m, c[k := None]) == Laid(m, c) - {k}
  {
  }

  lemma ApplyNothing(w: World)
    ensures Apply(w, NOTHING) == w
  {
    assert Laid(w.view.inodes, map[]) == w.view.inodes;
    assert Laid(w.view.contents, map[]) == w.view.contents;
    assert Laid(w.view.entries, map[]) == w.view.entries;
    assert Laid(w.orphans, map[]) == w.orphans;
    assert w.view.taken + {} == w.view.taken;
  }

  function PutInode(ghost w: World, c: Changes, id: Ident, n: Inode): (c': Changes)
    ensures Apply(w, c') == Apply(w, c).(view := Apply(w, c).view.(inodes := Apply(w, c).view.inodes[id := n]))
  {
    LaidPut(w.view.inodes, c.inodes, id, n);
    c.(inodes := c.inodes[id := Some(n)])
  }

  function DropInode(ghost w: World, c: Changes, id: Ident): (c': Changes)
    ensures Apply(w, c') == Apply(w, c).(view := Apply(w, c).view.(inodes := Apply(w, c).view.inodes - {id}))
  {
    LaidDrop(w.view.inodes, c.inodes, id);
    c.(inodes := c.inodes[id := None])
  }

  function PutContent(ghost w: World, c: Changes, id: Ident, data: Bytes): (c': Changes)
    ensures Apply(w, c') == Apply(w, c).(view := Apply(w, c).view.(contents := Apply(w, c).view.contents[id := data]))
  {
    LaidPut(w.view.contents, c.contents, id, data);
    c.(contents := c.contents[id := Some(data)])
  }

  function DropContent(ghost w: World, c: Changes, id: Ident): (c': Changes)
    ensures Apply(w, c') == Apply(w, c).(view := Apply(w, c).view.(contents := Apply(w, c).view.contents - {id}))
  {
    LaidDrop(w.view.contents, c.contents, id);
    c.(contents := c.contents[id := None])
  }

  function PutEntry(ghost w: World, c: Changes, slot: Slot, id: Ident): (c': Changes)
    ensures Apply(w, c') == Apply(w, c).(view := Apply(w, c).view.(entries := Apply(w, c).view.entries[slot := id]))
  {
    LaidPut(w.view.entries, c.entries, slot, id);
    c.(entries := c.entries[slot := Some(id)])
  }

  function DropEntry(ghost w: World, c: Changes, slot: Slot): (c': Changes)
    ensures Apply(w, c') == Apply(w, c).(view := Apply(w, c).view.(entries := Apply(w, c).view.entries - {slot}))
  {
    LaidDrop(w.view.entries, c.entries, slot);
    c.(entries := c.entries[slot := None])
  }

  function Take(ghost w: World, c: Changes, id: Ident): (c': Changes)
    ensures Apply(w, c') == Apply(w, c).(view := Apply(w, c).view.(taken := Apply(w, c).view.taken + {id}))
  {
    assert w.view.taken + (c.taken + {id}) == w.view.taken + c.taken + {id};
    c.(taken := c.taken + {id})
  }

  function PutOrphan(ghost w: World, c: Changes, id: Ident, o: Orphan): (c': Changes)
    ensures Apply(w, c') == Apply(w, c).(orphans := Apply(w, c).orphans[id := o])
  {
    LaidPut(w.orphans, c.orphans, id, o);
    c.(orphans := c.orphans[id := Some(o)])
  }
}
