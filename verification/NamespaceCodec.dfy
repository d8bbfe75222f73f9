/** The keys and inode records of a World as bytes (daemon/namespace.cpp).
    Typed records and stored ones correspond one to one. */
module NamespaceCodec {
  import opened Bytes
  import opened Paths
  import opened DirectoryTree
  import opened Namespace

  /** "root", "inode/", "allocated/", "content/", "entry/" */
  const ROOT_TAG: Bytes := [114, 111, 111, 116]
  const INODE_TAG: Bytes := [105, 110, 111, 100, 101, 47]
  const ALLOCATED_TAG: Bytes := [97, 108, 108, 111, 99, 97, 116, 101, 100, 47]
  const CONTENT_TAG: Bytes := [99, 111, 110, 116, 101, 110, 116, 47]
  const ENTRY_TAG: Bytes := [101, 110, 116, 114, 121, 47]
  /** "FFINOD01" */
  const INODE_MAGIC: Bytes := [70, 70, 73, 78, 79, 68, 48, 49]

  // ---- Keys ----

  datatype Key = RootKey | InodeKey(id: Ident) | AllocatedKey(id: Ident) | ContentKey(id: Ident) | EntryKey(slot: Slot)

  predicate Proper(k: Key) {
    match k
    case RootKey => true
    case EntryKey(slot) => ValidId(slot.dir)
    case _ => ValidId(k.id)
  }

  function DirectoryPrefix(d: Ident): Bytes {
    PREFIX + (ENTRY_TAG + (d + [SLASH]))
  }

  function Rest(k: Key): Bytes {
    match k
    case RootKey => ROOT_TAG
    case InodeKey(id) => INODE_TAG + id
    case AllocatedKey(id) => ALLOCATED_TAG + id
    case ContentKey(id) => CONTENT_TAG + id
    case EntryKey(slot) => ENTRY_TAG + (slot.dir + [SLASH] + slot.name)
  }

  function KeyBytes(k: Key): Bytes {
    PREFIX + Rest(k)
  }

  lemma Cancel(a: Bytes, b: Bytes, c: Bytes)
    requires a + b == a + c
    ensures b == c
  {
    assert (a + b)[|a|..] == b && (a + c)[|a|..] == c;
  }

  lemma FirstByte(k: Key)
    ensures Rest(k)[0] ==
      match k
      case RootKey => 114
      case InodeKey(_) => 105
      case AllocatedKey(_) => 97
      case ContentKey(_) => 99
      case EntryKey(_) => 101
  {
  }

  lemma EntryParts(s: Slot)
    requires |s.dir| == 32
    ensures var b := s.dir + [SLASH] + s.name; b[..32] == s.dir && b[33..] == s.name && |b| >= 33
  {
  }

  /** Different records never share a key. */
  lemma KeysDistinct(a: Key, b: Key)
    requires Proper(a) && Proper(b) && KeyBytes(a) == KeyBytes(b)
    ensures a == b
  {
    Cancel(PREFIX, Rest(a), Rest(b));
    FirstByte(a);
    FirstByte(b);
    match a
    case RootKey =>
    case InodeKey(id) => Cancel(INODE_TAG, id, b.id);
    case AllocatedKey(id) => Cancel(ALLOCATED_TAG, id, b.id);
    case ContentKey(id) => Cancel(CONTENT_TAG, id, b.id);
    case EntryKey(slot) =>
      Cancel(ENTRY_TAG, slot.dir + [SLASH] + slot.name, b.slot.dir + [SLASH] + b.slot.name);
      EntryParts(slot);
      EntryParts(b.slot);
  }

  lemma StartsCancel(a: Bytes, b: Bytes, p: Bytes)
    ensures StartsWith(a + b, a + p) <==> StartsWith(b, p)
  {
    if |p| <= |b| {
      assert (a + b)[..|a + p|] == a + b[..|p|];
      if a + b[..|p|] == a + p { Cancel(a, b[..|p|], p); }
    }
  }

  /** Listing a directory's prefix finds exactly its own entries. */
  lemma DirectoryListing(k: Key, d: Ident)
    requires Proper(k) && ValidId(d)
    ensures StartsWith(KeyBytes(k), DirectoryPrefix(d)) <==> k.EntryKey? && k.slot.dir == d
  {
    hide StartsWith;
    StartsCancel(PREFIX, Rest(k), ENTRY_TAG + (d + [SLASH]));
    FirstByte(k);
    if k.EntryKey? {
      StartsCancel(ENTRY_TAG, k.slot.dir + [SLASH] + k.slot.name, d + [SLASH]);
      EntryPrefix(k.slot, d);
    } else {
      OtherStart(Rest(k), ENTRY_TAG + (d + [SLASH]));
    }
  }

  lemma OtherStart(b: Bytes, p: Bytes)
    requires b != [] && p != [] && b[0] != p[0]
    ensures !StartsWith(b, p)
  {
    if |p| <= |b| { assert b[..|p|][0] == b[0]; }
  }

  lemma EntryPrefix(s: Slot, d: Ident)
    requires |s.dir| == 32 && |d| == 32
    ensures StartsWith(s.dir + [SLASH] + s.name, d + [SLASH]) <==> s.dir == d
  {
    var b := s.dir + [SLASH] + s.name;
    assert b[..33] == s.dir + [SLASH];
    assert (s.dir + [SLASH])[..32] == s.dir && (d + [SLASH])[..32] == d;
  }

  // ---- Inodes ----

  /** An inode record with its two timestamps. */
  datatype Stamped = Stamped(inode: Inode, modified: nat, changed: nat)

  function KindNumber(k: Kind): nat {
    match k case Regular => 1 case Directory => 2 case Symlink => 3
  }

  function EncodeInode(s: Stamped): (b: Bytes)
    ensures |b| == 48
  {
    INODE_MAGIC + Le(KindNumber(s.inode.kind), 4) + Le(s.inode.mode, 4) + Le(s.inode.links, 8) + Le(s.inode.size, 8) +
      Le(s.modified, 8) + Le(s.changed, 8)
  }

  /** A stored inode's state: linked unless an orphan, and an orphan is a plain file. */
  predicate StateOk(n: Inode, orphan: bool) {
    n.mode <= MODES && (if orphan then n.kind.Regular? && n.links == 0 else n.links > 0) &&
    (n.kind.Directory? ==> n.links >= 2 && n.size == 0)
  }

  function DecodeInode(b: Bytes, orphan: bool): Option<Stamped> {
    if |b| != 48 || b[..8] != INODE_MAGIC then None
    else
      var kind := Num(b[8..12]);
      if kind != 1 && kind != 2 && kind != 3 then None
      else
        var k := if kind == 2 then Directory else if kind == 3 then Symlink else Regular;
        var n := Inode(k, Num(b[12..16]), Num(b[16..24]), Num(b[24..32]));
        if StateOk(n, orphan) then Some(Stamped(n, Num(b[32..40]), Num(b[40..48]))) else None
  }

  predicate Storable(s: Stamped) {
    s.inode.mode < U32 && s.inode.links < U64 && s.inode.size < U64 && s.modified < U64 && s.changed < U64
  }

  lemma SevenParts(m: Bytes, a: Bytes, b: Bytes, c: Bytes, e: Bytes, f: Bytes, g: Bytes)
    requires |m| == 8 && |a| == 4 && |b| == 4 && |c| == 8 && |e| == 8 && |f| == 8 && |g| == 8
    ensures var s := m + a + b + c + e + f + g;
      s[..8] == m && s[8..12] == a && s[12..16] == b && s[16..24] == c && s[24..32] == e && s[32..40] == f &&
      s[40..48] == g
  {
  }

  /** An encoded inode reads back as itself exactly when its state is a legal one. */
  lemma InodeRoundTrip(s: Stamped, orphan: bool)
    requires Storable(s)
    ensures DecodeInode(EncodeInode(s), orphan) == if StateOk(s.inode, orphan) then Some(s) else None
  {
    hide Le, Num;
    FitsU32(KindNumber(s.inode.kind));
    FitsU32(s.inode.mode);
    FitsU64(s.inode.links);
    FitsU64(s.inode.size);
    FitsU64(s.modified);
    FitsU64(s.changed);
    SevenParts(INODE_MAGIC, Le(KindNumber(s.inode.kind), 4), Le(s.inode.mode, 4), Le(s.inode.links, 8),
               Le(s.inode.size, 8), Le(s.modified, 8), Le(s.changed, 8));
  }
  lemma SevenBack(b: Bytes)
    requires |b| == 48
    ensures b == b[..8] + b[8..12] + b[12..16] + b[16..24] + b[24..32] + b[32..40] + b[40..48]
  {
  }

  /** What reads as an inode is that inode's one encoding, in a legal state. */
  lemma InodeReadBack(b: Bytes, orphan: bool)
    requires DecodeInode(b, orphan).Some?
    ensures b == EncodeInode(DecodeInode(b, orphan).value) && StateOk(DecodeInode(b, orphan).value.inode, orphan)
  {
    hide Le, Num, StateOk;
    LeNum(b[8..12]);
    LeNum(b[12..16]);
    LeNum(b[16..24]);
    LeNum(b[24..32]);
    LeNum(b[32..40]);
    LeNum(b[40..48]);
    SevenBack(b);
  }

  lemma DirectoryLinked(v: View, id: Ident)
    requires Verified(v) && id in v.inodes && v.inodes[id].kind.Directory?
    ensures v.inodes[id].links >= 2
  {
    hide Tree, Local, Readable;
    assert id in ShapeOf(v).dirs;
  }

  lemma NodeLegal(v: View, id: Ident)
    requires Verified(v) && id in v.inodes
    ensures NodeOk(v, id, v.inodes[id])
  {
    hide Tree, Counted, NodeOk;
  }

  /** Every inode of a verified tree can be stored: it reads back as linked, and a file whose
      last name goes reads back as an orphan. */
  lemma RecordsStorable(v: View, id: Ident, modified: nat, changed: nat)
    requires Verified(v) && id in v.inodes && Storable(Stamped(v.inodes[id], modified, changed))
    ensures var s := Stamped(v.inodes[id], modified, changed);
      DecodeInode(EncodeInode(s), false) == Some(s) &&
      (s.inode.kind.Regular? ==>
        var o := s.(inode := s.inode.(links := 0)); DecodeInode(EncodeInode(o), true) == Some(o))
  {
    hide Verified, DecodeInode, EncodeInode;
    NodeLegal(v, id);
    var s := Stamped(v.inodes[id], modified, changed);
    if s.inode.kind.Directory? { DirectoryLinked(v, id); }
    InodeRoundTrip(s, false);
    InodeRoundTrip(s.(inode := s.inode.(links := 0)), true);
  }
}
