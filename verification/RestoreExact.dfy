/** Opening a container accepts nothing but what was written: a checkpoint that restores is the
    whole record of the state it gives, an object that reads back is its own record, and an
    anchor is the one encoding of its fields (daemon/journal.cpp, daemon/container.cpp). */
module RestoreExact {
  import opened Bytes
  import opened JournalCodec
  import opened JournalReplay
  import opened JournalTx
  import opened JournalWriter
  import opened JournalStore
  import opened JournalCheckpoint
  import opened JournalExact
  import opened ContainerFile

  // ---- Checkpoint payloads ----

  lemma ObjectExact(p: Bytes, at: nat, id: Hash, off: nat, len: nat)
    requires at + 44 <= |p| && p[at..at + 32] == id && Num(p[at + 32..at + 40]) == off && off >= BASE
    requires Num(p[at + 40..at + 44]) == len
    ensures p[at..at + 44] == EncodeObject(id, Location(off - BASE, len))
  {
    hide Le, Num;
    NumIs(p[at + 32..at + 40], off);
    NumIs(p[at + 40..at + 44], len);
    Together(p, at, at + 32, at + 40, at + 44);
  }

  /** The objects a parse went over. */
  ghost predicate ObjectsRead(p: Bytes, at: nat, ids: seq<Hash>, previous: Option<Hash>, limit: nat,
                              acc: map<Hash, Location>, objects: map<Hash, Location>) {
    at + 44 * |ids| <= |p| && ObjectsListable(ids, objects, previous, limit) &&
    (forall id :: id in ids ==> id in objects) && p[at..at + 44 * |ids|] == EncodeObjects(ids, objects) &&
    objects.Keys == acc.Keys + Elements(ids) && forall id :: id in acc && id !in ids ==> objects[id] == acc[id]
  }

  lemma ObjectsListableCons(id: Hash, ids: seq<Hash>, objects: map<Hash, Location>, previous: Option<Hash>, limit: nat)
    requires ObjectsListable(ids, objects, Some(id), limit) && id in objects && id != NO_HASH
    requires Placed(objects[id], limit) && (previous.Some? ==> Less(previous.value, id))
    ensures ObjectsListable([id] + ids, objects, previous, limit)
  {
    hide Less, Placed;
    SortedCons(id, ids);
  }

  lemma EncodeObjectsCons(p: Bytes, at: nat, id: Hash, ids: seq<Hash>, objects: map<Hash, Location>)
    requires id in objects && (forall i :: i in ids ==> i in objects) && at + 44 + 44 * |ids| <= |p|
    requires p[at..at + 44] == EncodeObject(id, objects[id])
    requires p[at + 44..at + 44 + 44 * |ids|] == EncodeObjects(ids, objects)
    ensures (forall i :: i in [id] + ids ==> i in objects)
    ensures p[at..at + 44 + 44 * |ids|] == EncodeObjects([id] + ids, objects)
  {
    hide EncodeObject;
    var end, all := at + 44 + 44 * |ids|, [id] + ids;
    assert all[0] == id && all[1..] == ids;
    assert EncodeObjects(all, objects) == EncodeObject(id, objects[id]) + EncodeObjects(ids, objects);
    hide EncodeObjects;
    Both(p, at, at + 44, end);
  }

  lemma Both(p: Bytes, at: nat, mid: nat, end: nat)
    requires at <= mid <= end <= |p|
    ensures p[at..end] == p[at..mid] + p[mid..end]
  {
  }

  lemma ObjectsReadCons(p: Bytes, at: nat, id: Hash, loc: Location, ids: seq<Hash>, previous: Option<Hash>, limit: nat,
                        acc: map<Hash, Location>, objects: map<Hash, Location>)
    requires ObjectsRead(p, at + 44, ids, Some(id), limit, acc[id := loc], objects)
    requires p[at..at + 44] == EncodeObject(id, loc) && id != NO_HASH && Placed(loc, limit)
    requires previous.Some? ==> Less(previous.value, id)
    ensures ObjectsRead(p, at, [id] + ids, previous, limit, acc, objects)
  {
    hide Less, EncodeObject, EncodeObjects, Placed, ObjectsListable;
    assert id in objects;
    assert id !in ids by { ObjectsAfter(id, ids, objects, limit); }
    assert objects[id] == loc;
    ObjectsListableCons(id, ids, objects, previous, limit);
    EncodeObjectsCons(p, at, id, ids, objects);
    assert Elements([id] + ids) == {id} + Elements(ids);
    assert 44 * |[id] + ids| == 44 + 44 * |ids|;
  }

  lemma ObjectsAfter(id: Hash, ids: seq<Hash>, objects: map<Hash, Location>, limit: nat)
    requires ObjectsListable(ids, objects, Some(id), limit)
    ensures id !in ids
  {
    hide Placed;
    SortedCons(id, ids);
  }

  lemma ObjectsReadNone(p: Bytes, at: nat, previous: Option<Hash>, limit: nat, acc: map<Hash, Location>)
    requires at <= |p|
    ensures ObjectsRead(p, at, [], previous, limit, acc, acc)
  {
    assert Elements<Hash>([]) == {};
  }

  lemma {:induction false} ObjectsExact(p: Bytes, at: nat, count: nat, previous: Option<Hash>, limit: nat,
                                        acc: map<Hash, Location>)
    returns (ids: seq<Hash>)
    requires at <= |p| && ParseObjects(p, at, count, previous, limit, acc).Some?
    ensures |ids| == count
    ensures ObjectsRead(p, at, ids, previous, limit, acc, ParseObjects(p, at, count, previous, limit, acc).value)
    decreases count
  {
    hide Less, Num, ObjectsRead, EncodeObject, Placed;
    var objects := ParseObjects(p, at, count, previous, limit, acc).value;
    if count == 0 {
      ObjectsReadNone(p, at, previous, limit, acc);
      return [];
    }
    var id: Hash := p[at..at + 32];
    var off, len := Num(p[at + 32..at + 40]), Num(p[at + 40..at + 44]);
    ObjectExact(p, at, id, off, len);
    var loc := Location(off - BASE, len);
    var rest := ObjectsExact(p, at + 44, count - 1, Some(id), limit, acc[id := loc]);
    ObjectsReadCons(p, at, id, loc, rest, previous, limit, acc, objects);
    return [id] + rest;
  }

  lemma RootExact(p: Bytes, at: nat, n: nat)
    requires at + 36 + n <= |p| && Num(p[at..at + 4]) == n
    ensures p[at..at + 36 + n] == EncodeRoot(p[at + 4..at + 4 + n], p[at + 4 + n..at + 36 + n])
  {
    hide Le, Num;
    NumIs(p[at..at + 4], n);
    Together(p, at, at + 4, at + 4 + n, at + 36 + n);
  }

  /** The roots a parse went over. */
  ghost predicate RootsRead(p: Bytes, at: nat, keys: seq<Bytes>, previous: Option<Bytes>, objects: set<Hash>,
                            acc: map<Bytes, Hash>, end: nat, roots: map<Bytes, Hash>) {
    at <= end <= |p| && RootsListable(keys, roots, previous, objects) && (forall k :: k in keys ==> k in roots) &&
    p[at..end] == EncodeRoots(keys, roots) && roots.Keys == acc.Keys + Elements(keys) &&
    forall k :: k in acc && k !in keys ==> roots[k] == acc[k]
  }

  lemma RootsListableCons(key: Bytes, keys: seq<Bytes>, roots: map<Bytes, Hash>, previous: Option<Bytes>,
                          objects: set<Hash>)
    requires RootsListable(keys, roots, Some(key), objects) && key in roots && 0 < |key| <= 1024
    requires roots[key] in objects && (previous.Some? ==> Less(previous.value, key))
    ensures RootsListable([key] + keys, roots, previous, objects)
  {
    hide Less;
    SortedCons(key, keys);
  }

  lemma EncodeRootsCons(p: Bytes, at: nat, key: Bytes, keys: seq<Bytes>, roots: map<Bytes, Hash>, end: nat)
    requires key in roots && (forall k :: k in keys ==> k in roots) && at + 36 + |key| <= end <= |p|
    requires p[at..at + 36 + |key|] == EncodeRoot(key, roots[key])
    requires p[at + 36 + |key|..end] == EncodeRoots(keys, roots)
    ensures (forall k :: k in [key] + keys ==> k in roots) && p[at..end] == EncodeRoots([key] + keys, roots)
  {
    hide EncodeRoot;
    assert ([key] + keys)[1..] == keys;
    Together(p, at, at + 36 + |key|, end, end);
  }

  lemma RootsAfter(key: Bytes, keys: seq<Bytes>, roots: map<Bytes, Hash>, objects: set<Hash>)
    requires RootsListable(keys, roots, Some(key), objects)
    ensures key !in keys
  {
    SortedCons(key, keys);
  }

  lemma RootsReadCons(p: Bytes, at: nat, key: Bytes, id: Hash, keys: seq<Bytes>, previous: Option<Bytes>,
                      objects: set<Hash>, acc: map<Bytes, Hash>, end: nat, roots: map<Bytes, Hash>)
    requires RootsRead(p, at + 36 + |key|, keys, Some(key), objects, acc[key := id], end, roots)
    requires p[at..at + 36 + |key|] == EncodeRoot(key, id) && 0 < |key| <= 1024 && id in objects
    requires previous.Some? ==> Less(previous.value, key)
    ensures RootsRead(p, at, [key] + keys, previous, objects, acc, end, roots)
  {
    hide Less, EncodeRoot, EncodeRoots, RootsListable, Elements;
    RootsAfter(key, keys, roots, objects);
    MergedCons(key, id, keys, acc, roots);
    RootsListableCons(key, keys, roots, previous, objects);
    EncodeRootsCons(p, at, key, keys, roots, end);
  }

  lemma MergedCons(key: Bytes, id: Hash, keys: seq<Bytes>, acc: map<Bytes, Hash>, roots: map<Bytes, Hash>)
    requires key !in keys && roots.Keys == acc[key := id].Keys + Elements(keys)
    requires forall k :: k in acc[key := id] && k !in keys ==> roots[k] == acc[key := id][k]
    ensures key in roots && roots[key] == id && roots.Keys == acc.Keys + Elements([key] + keys)
    ensures forall k :: k in acc && k !in [key] + keys ==> roots[k] == acc[k]
  {
    assert key in acc[key := id];
    assert Elements([key] + keys) == {key} + Elements(keys);
  }

  lemma RootsReadNone(p: Bytes, at: nat, previous: Option<Bytes>, objects: set<Hash>, acc: map<Bytes, Hash>)
    requires at <= |p|
    ensures RootsRead(p, at, [], previous, objects, acc, at, acc)
  {
    assert Elements<Bytes>([]) == {};
  }

  lemma {:induction false} RootsExact(p: Bytes, at: nat, count: nat, previous: Option<Bytes>, objects: set<Hash>,
                                      acc: map<Bytes, Hash>)
    returns (keys: seq<Bytes>)
    requires at <= |p| && ParseRoots(p, at, count, previous, objects, acc).Some?
    ensures |keys| == count
    ensures var (end, roots) := ParseRoots(p, at, count, previous, objects, acc).value;
      RootsRead(p, at, keys, previous, objects, acc, end, roots)
    decreases count
  {
    hide Less, Num, RootsRead, EncodeRoot;
    var (end, roots) := ParseRoots(p, at, count, previous, objects, acc).value;
    if count == 0 {
      RootsReadNone(p, at, previous, objects, acc);
      return [];
    }
    var n := Num(p[at..at + 4]);
    var key, id: Hash := p[at + 4..at + 4 + n], p[at + 4 + n..at + 36 + n];
    RootExact(p, at, n);
    var rest := RootsExact(p, at + 36 + n, count - 1, Some(key), objects, acc[key := id]);
    RootsReadCons(p, at, key, id, rest, previous, objects, acc, end, roots);
    return [key] + rest;
  }

  lemma ObjectsListed(p: Bytes, ids: seq<Hash>, limit: nat, objects: map<Hash, Location>)
    requires ObjectsRead(p, 48, ids, None, limit, map[], objects)
    ensures ids == SortedHashes(objects.Keys) && p[48..48 + 44 * |ids|] == EncodeObjects(ids, objects)
    ensures forall id :: id in objects ==> id != NO_HASH && Placed(objects[id], limit)
  {
    hide Less, Placed, EncodeObjects, Sorted, SortedHashes;
    SortedUnique(ids, SortedHashes(objects.Keys));
  }

  lemma RootsListed(p: Bytes, at: nat, keys: seq<Bytes>, objects: set<Hash>, roots: map<Bytes, Hash>)
    requires RootsRead(p, at, keys, None, objects, map[], |p|, roots)
    ensures keys == SortedKeys(roots.Keys) && at <= |p| && p[at..] == EncodeRoots(keys, roots)
    ensures forall k :: k in roots ==> 0 < |k| <= 1024 && roots[k] in objects
  {
    hide Less, EncodeRoots, Sorted, SortedKeys;
    SortedUnique(keys, SortedKeys(roots.Keys));
    assert p[at..|p|] == p[at..];
  }

  lemma SixBack(p: Bytes, n: nat)
    requires 48 <= n <= |p|
    ensures p == p[..8] + p[8..40] + p[40..44] + p[44..48] + p[48..n] + p[n..]
  {
  }

  lemma PayloadOf(p: Bytes, mem: Mem, ids: seq<Hash>, keys: seq<Bytes>)
    requires |p| >= 48 + 44 * |ids| && Num(p[..8]) == mem.txn && p[8..40] == mem.chain
    requires Num(p[40..44]) == |ids| && Num(p[44..48]) == |keys|
    requires ids == SortedHashes(mem.objects.Keys) && keys == SortedKeys(mem.roots.Keys)
    requires p[48..48 + 44 * |ids|] == EncodeObjects(ids, mem.objects)
    requires p[48 + 44 * |ids|..] == EncodeRoots(keys, mem.roots)
    ensures p == Payload(mem)
  {
    hide Le, Num, EncodeObjects, EncodeRoots, SortedHashes, SortedKeys, Sorted;
    NumIs(p[..8], mem.txn);
    NumIs(p[40..44], |ids|);
    NumIs(p[44..48], |keys|);
    SixBack(p, 48 + 44 * |ids|);
  }

  /** A checkpoint payload decodes only as the one index of the state it gives: objects in
      order, placed before it, and roots in order, each on an indexed object. */
  lemma PayloadExact(p: Bytes, txn: nat, limit: nat, start: nat)
    requires DecodePayload(p, txn, limit, start).Some?
    ensures var mem := DecodePayload(p, txn, limit, start).value;
      p == Payload(mem) && mem.txn == txn && mem.end == start && (mem.txn == 0 <==> mem.chain == NO_HASH) &&
      (forall id :: id in mem.objects ==> id != NO_HASH && Placed(mem.objects[id], limit)) &&
      forall k :: k in mem.roots ==> 0 < |k| <= 1024 && mem.roots[k] in mem.objects
  {
    hide Num, ParseObjects, ParseRoots, Payload, Placed, EncodeObjects, EncodeRoots, ObjectsRead, RootsRead,
         SortedHashes, SortedKeys, Sorted;
    var mem := DecodePayload(p, txn, limit, start).value;
    var no, nr := Num(p[40..44]), Num(p[44..48]);
    var ids := ObjectsExact(p, 48, no, None, limit, map[]);
    ObjectsListed(p, ids, limit, mem.objects);
    var keys := RootsExact(p, 48 + no * 44, nr, None, mem.objects.Keys, map[]);
    RootsListed(p, 48 + no * 44, keys, mem.objects.Keys, mem.roots);
    PayloadOf(p, mem, ids, keys);
  }

  /** A reference restores only if it names the whole checkpoint record of the state it gives,
      inside its segment and under its hash. */
  lemma RestoreOnly(d: Digest, repo: Bytes, body: Bytes, c: Checkpoint)
    requires |repo| == 16 && Restore(d, repo, body, c).Some?
    ensures var mem := Restore(d, repo, body, c).value;
      c.start <= |body| && c.start == c.at + c.length && body[c.at..c.start] == Encode(d, CheckpointRec(mem)) &&
      c.txn == mem.txn && mem.end == c.start && c.hash == d.sha(Payload(mem)) && HeaderAt(d, repo, body, c.at) &&
      HEADER <= Offset(c.at) && Offset(c.at) + c.length <= SPAN
  {
    hide ReadRecord, DecodePayload, Payload, Encode, Encodable, HeaderAt, RecordLength;
    OnlyRecords(d, body, c.at, |body|);
    var r := ReadRecord(d, body, c.at, |body|).rec;
    PayloadExact(r.payload, c.txn, c.at, c.start);
  }

  // ---- Objects ----

  /** An object reads back only from its own whole DATA record, of a transaction so far. */
  lemma ReadOnlyOwn(d: Digest, body: Bytes, loc: Location, txn: nat, id: Hash)
    requires ReadAt(d, body, loc, txn, id).Some?
    ensures var r, value := ReadRecord(d, body, loc.at, loc.at + loc.length).rec, ReadAt(d, body, loc, txn, id).value;
      id == ObjectHash(d, value) && 0 < r.txn <= txn && loc.at + loc.length <= |body| && |value| <= MAX_PAYLOAD &&
      body[loc.at..loc.at + loc.length] == Encode(d, DataRec(d, r.txn, value))
  {
    hide Encode, Le, Num, ObjectHash, Encodable, RecordLength, ReadRecord;
    OnlyRecords(d, body, loc.at, loc.at + loc.length);
    var r := ReadRecord(d, body, loc.at, loc.at + loc.length).rec;
    var p := r.payload;
    NumIs(p[..2], 4);
    NumIs(p[2..4], 0);
    assert p == p[..2] + p[2..4] + p[4..];
  }
  // ---- Anchors ----

  /** The anchor these bytes encode. */
  function AnchorOf(b: Bytes): Anchor
    requires |b| == ANCHOR
  {
    var at, start := Num(b[64..72]), Num(b[120..128]);
    Anchor(b[16..32], Num(b[32..40]),
           if at < BASE || start < BASE then None else Some(ReferenceAt(b, at - BASE, start - BASE)), Num(b[128..136]))
  }

  /** The reference is absent, or lies in the body. */
  predicate Referring(b: Bytes)
    requires |b| == ANCHOR
  {
    Num(b[64..72]) == 0 || (Num(b[64..72]) >= BASE && Num(b[120..128]) >= BASE)
  }

  lemma ZerosOf(s: Bytes)
    requires AllZero(s)
    ensures s == Zeros(|s|)
  {
  }

  lemma ReferenceExact(b: Bytes)
    requires |b| == ANCHOR && Supported(b) && Referring(b)
    ensures b[64..128] == EncodeReference(AnchorOf(b).anchored)
  {
    hide Le, Num;
    if Num(b[64..72]) == 0 {
      ZerosOf(b[64..120]);
      NumIs(b[120..128], BASE);
      Together(b, 64, 120, 128, 128);
    } else {
      NumIs(b[64..72], Num(b[64..72]));
      NumIs(b[72..80], Num(b[72..80]));
      NumIs(b[80..88], Num(b[80..88]));
      NumIs(b[120..128], Num(b[120..128]));
      assert b[64..128] == b[64..72] + b[72..80] + b[80..88] + b[88..120] + b[120..128];
    }
  }

  lemma ZeroVersion(b: Bytes)
    requires |b| == ANCHOR && Num(b[8..10]) == 0 && Num(b[10..12]) == 0 && Num(b[40..48]) == 0 && Num(b[48..56]) == 0
    ensures b[8..12] == Le(0, 4) && b[40..56] == Zeros(16)
  {
    hide Num;
    NumIs(b[8..10], 0);
    NumIs(b[10..12], 0);
    NumIs(b[40..48], 0);
    NumIs(b[48..56], 0);
    Together(b, 8, 10, 12, 12);
    Together(b, 40, 48, 56, 56);
    NoBytes();
  }

  lemma NoBytes()
    ensures Le(0, 2) + Le(0, 2) == Le(0, 4) && Le(0, 8) + Le(0, 8) == Zeros(16)
  {
    assert Le(0, 2) == [0, 0] && Le(0, 4) == [0, 0, 0, 0];
    assert Le(0, 8) == [0, 0, 0, 0] + Le(0, 4);
  }

  lemma FieldsOf(b: Bytes)
    requires |b| == ANCHOR
    ensures b[..4092] == b[..8] + b[8..12] + b[12..16] + b[16..32] + b[32..40] + b[40..56] + b[56..64] + b[64..128] +
      b[128..136] + b[136..4092]
  {
  }

  /** A checksum-valid anchor this version supports is the one encoding of its fields. */
  lemma AnchorExact(d: Digest, b: Bytes)
    requires |b| == ANCHOR && ValidAnchor(d, b) && Supported(b) && Referring(b)
    ensures b == EncodeAnchor(d, AnchorOf(b)) && !AllZero(AnchorOf(b).repo)
  {
    hide Le, Num, AllZero, EncodeReference;
    ZeroVersion(b);
    ReferenceExact(b);
    NumIs(b[12..16], ANCHOR);
    NumIs(b[32..40], Num(b[32..40]));
    NumIs(b[56..64], SPAN);
    NumIs(b[128..136], Num(b[128..136]));
    ZerosOf(b[136..4092]);
    NumIs(b[4092..], d.crc(b[..4092]));
    FieldsOf(b);
    assert b == b[..4092] + b[4092..];
  }

  /** The slots can be told apart: whatever is valid is supported, two valid ones belong to one
      repository, and of one generation there is one. */
  predicate Consistent(d: Digest, a: Bytes, b: Bytes)
    requires |a| == ANCHOR && |b| == ANCHOR
  {
    (ValidAnchor(d, a) || ValidAnchor(d, b)) && (ValidAnchor(d, a) ==> Supported(a)) &&
    (ValidAnchor(d, b) ==> Supported(b)) &&
    (ValidAnchor(d, a) && ValidAnchor(d, b) ==>
      a[16..32] == b[16..32] && (Generation(a) == Generation(b) ==> a == b))
  }

  /** A container opens exactly when its slots are consistent and the newest valid one refers
      to a state that recovers; it then opens as that state. */
  lemma OpensNewest(d: Digest, disk: Disk)
    requires |disk.a| == ANCHOR && |disk.b| == ANCHOR
    ensures Open(d, disk).Opened? ==>
      Consistent(d, disk.a, disk.b) &&
      exists x ::
        (x == disk.a || x == disk.b) && ValidAnchor(d, x) && Referring(x) && x == EncodeAnchor(d, AnchorOf(x)) &&
        (forall y :: (y == disk.a || y == disk.b) && ValidAnchor(d, y) ==> Generation(y) <= Generation(x)) &&
        Open(d, disk).repo == AnchorOf(x).repo &&
        Recover(d, AnchorOf(x).repo, disk.body, AnchorOf(x).anchored) == Some(Open(d, disk).mem)
    ensures Consistent(d, disk.a, disk.b) ==>
      forall x ::
        (x == disk.a || x == disk.b) && ValidAnchor(d, x) && Referring(x) &&
        (forall y :: (y == disk.a || y == disk.b) && ValidAnchor(d, y) ==> Generation(y) <= Generation(x)) &&
        Recover(d, AnchorOf(x).repo, disk.body, AnchorOf(x).anchored).Some? ==>
          Open(d, disk) ==
            Opened(AnchorOf(x).repo, Recover(d, AnchorOf(x).repo, disk.body, AnchorOf(x).anchored).value)
  {
    hide ValidAnchor, Supported, Recover, Num, EncodeAnchor, Generation;
    if Open(d, disk).Opened? {
      var x := Choose(d, disk.a, disk.b).bytes;
      AnchorExact(d, x);
    }
  }
}
