/** Checkpoints: the index written to the log, and restoring from it. */
module JournalCheckpoint {
  import opened Bytes
  import opened JournalCodec
  import opened JournalReplay
  import opened JournalLog
  import opened JournalTx
  import opened JournalWriter
  import opened JournalStore

  /** Where a checkpoint record lies, what it must say, and where replay resumes. */
  datatype Checkpoint = Checkpoint(at: nat, length: nat, txn: nat, start: nat, hash: Hash)

  // ---- Encoding ----

  function EncodeObject(id: Hash, loc: Location): (b: Bytes)
    ensures |b| == 44
  {
    id + Le(BASE + loc.at, 8) + Le(loc.length, 4)
  }

  function EncodeObjects(ids: seq<Hash>, objects: map<Hash, Location>): (b: Bytes)
    requires forall id :: id in ids ==> id in objects
    ensures |b| == 44 * |ids|
  {
    if ids == [] then [] else EncodeObject(ids[0], objects[ids[0]]) + EncodeObjects(ids[1..], objects)
  }

  function EncodeRoot(key: Bytes, id: Hash): (b: Bytes)
    ensures |b| == 36 + |key|
  {
    Le(|key|, 4) + key + id
  }

  function EncodeRoots(keys: seq<Bytes>, roots: map<Bytes, Hash>): Bytes
    requires forall k :: k in keys ==> k in roots
  {
    if keys == [] then [] else EncodeRoot(keys[0], roots[keys[0]]) + EncodeRoots(keys[1..], roots)
  }

  ghost function Payload(mem: Mem): Bytes {
    Le(mem.txn, 8) + mem.chain + Le(|mem.objects|, 4) + Le(|mem.roots|, 4) +
    EncodeObjects(SortedHashes(mem.objects.Keys), mem.objects) + EncodeRoots(SortedKeys(mem.roots.Keys), mem.roots)
  }

  ghost function CheckpointRec(mem: Mem): Rec {
    Rec(CHECKPOINT, mem.txn, NO_HASH, Payload(mem))
  }

  // ---- Decoding ----

  function ParseObjects(p: Bytes, at: nat, count: nat, previous: Option<Hash>, limit: nat,
                        acc: map<Hash, Location>): Option<map<Hash, Location>>
    decreases count
  {
    if count == 0 then Some(acc)
    else if at + 44 > |p| then None
    else
      var id: Hash := p[at..at + 32];
      var off, len := Num(p[at + 32..at + 40]), Num(p[at + 40..at + 44]);
      if id == NO_HASH || (previous.Some? && !Less(previous.value, id)) then None
      else if off < BASE || off % 8 != 0 || !Placed(Location(off - BASE, len), limit) then None
      else ParseObjects(p, at + 44, count - 1, Some(id), limit, acc[id := Location(off - BASE, len)])
  }

  function ParseRoots(p: Bytes, at: nat, count: nat, previous: Option<Bytes>, objects: set<Hash>,
                      acc: map<Bytes, Hash>): Option<(nat, map<Bytes, Hash>)>
    decreases count
  {
    if count == 0 then Some((at, acc))
    else if at > |p| || |p| - at < 4 then None
    else
      var n := Num(p[at..at + 4]);
      if !(0 < n <= 1024 && |p| - (at + 4) >= n + 32) then None
      else
        var key := p[at + 4..at + 4 + n];
        var id: Hash := p[at + 4 + n..at + 36 + n];
        if (previous.Some? && !Less(previous.value, key)) || id !in objects then None
        else ParseRoots(p, at + 36 + n, count - 1, Some(key), objects, acc[key := id])
  }

  function DecodePayload(p: Bytes, txn: nat, limit: nat, start: nat): Option<Mem> {
    if |p| < 48 || Num(p[..8]) != txn then None
    else
      var chain: Hash := p[8..40];
      var no, nr := Num(p[40..44]), Num(p[44..48]);
      if (txn == 0) != (chain == NO_HASH) then None
      else if no > (|p| - 48) / 44 || nr > (|p| - 48 - no * 44) / 37 then None
      else
        match ParseObjects(p, 48, no, None, limit, map[])
        case None => None
        case Some(objects) =>
          match ParseRoots(p, 48 + no * 44, nr, None, objects.Keys, map[])
          case None => None
          case Some((at, roots)) => if at == |p| then Some(Mem(txn, start, chain, roots, objects)) else None
  }

  function HeaderAt(d: Digest, repo: Bytes, body: Bytes, at: nat): bool
    requires |repo| == 16
  {
    var s := Segment(at) * SPAN;
    s + HEADER <= |body| && body[s..s + HEADER] == SegmentHeader(d, repo, Segment(at))
  }

  function Restore(d: Digest, repo: Bytes, body: Bytes, c: Checkpoint): Option<Mem>
    requires |repo| == 16
  {
    if !(c.at <= |body| && c.length <= |body| - c.at && c.start == c.at + c.length) then None
    else if Offset(c.at) < HEADER || !HeaderAt(d, repo, body, c.at) then None
    else
      match ReadRecord(d, body, c.at, |body|)
      case Bad => None
      case Torn => None
      case Got(r, len) =>
        if r.kind == CHECKPOINT && r.oid == NO_HASH && r.txn == c.txn && len == c.length && d.sha(r.payload) == c.hash
        then DecodePayload(r.payload, c.txn, c.at, c.start) else None
  }

  /** Opening a journal: the anchored checkpoint, if any, then the log after it. */
  function Recover(d: Digest, repo: Bytes, body: Bytes, anchored: Option<Checkpoint>): Option<Mem>
    requires |repo| == 16
  {
    match anchored
    case None => MemOf(Run(d, repo, body, Idle(0, EMPTY)))
    case Some(c) =>
      match Restore(d, repo, body, c)
      case None => None
      case Some(mem) =>
        if mem.end > |body| || (Offset(mem.end) != 0 && !HeaderAt(d, repo, body, mem.end)) then None
        else MemOf(Run(d, repo, body, Idle(mem.end, mem)))
  }

  function MemOf(c: Option<Cursor>): Option<Mem> {
    match c case None => None case Some(cursor) => Some(cursor.mem)
  }

  // ---- The payload decodes to the state it was made from ----

  ghost predicate ObjectsListable(ids: seq<Hash>, objects: map<Hash, Location>, previous: Option<Hash>, limit: nat) {
    Sorted(ids) && (previous.Some? && ids != [] ==> Less(previous.value, ids[0])) &&
    forall id :: id in ids ==> id in objects && id != NO_HASH && Placed(objects[id], limit)
  }

  lemma ObjectsFirst(ids: seq<Hash>, objects: map<Hash, Location>, previous: Option<Hash>, limit: nat)
    requires ids != [] && ObjectsListable(ids, objects, previous, limit)
    ensures var id := ids[0];
            id in objects && id != NO_HASH && Placed(objects[id], limit) &&
            (previous.Some? ==> Less(previous.value, id))
    ensures ObjectsListable(ids[1..], objects, Some(ids[0]), limit)
  {
    hide Less, Placed, Sorted;
    SortedRest(ids);
    assert ids[0] in ids;
    forall id | id in ids[1..] ensures id in ids { }
  }

  lemma ThreeParts(p: Bytes, at: nat, a: Bytes, b: Bytes, c: Bytes)
    requires at + |a| + |b| + |c| <= |p| && p[at..at + |a| + |b| + |c|] == a + b + c
    ensures p[at..at + |a|] == a && p[at + |a|..at + |a| + |b|] == b
    ensures p[at + |a| + |b|..at + |a| + |b| + |c|] == c
  {
    var n := |a| + |b| + |c|;
    SliceOfSlice(p, at, at + n, 0, |a|);
    SliceOfSlice(p, at, at + n, |a|, |a| + |b|);
    SliceOfSlice(p, at, at + n, |a| + |b|, n);
  }

  lemma ObjectParsed(p: Bytes, at: nat, count: nat, previous: Option<Hash>, limit: nat, acc: map<Hash, Location>,
                     id: Hash, loc: Location)
    requires count > 0 && at + 44 <= |p| && p[at..at + 44] == EncodeObject(id, loc)
    requires id != NO_HASH && (previous.Some? ==> Less(previous.value, id)) && Placed(loc, limit) && BASE + limit < U64
    ensures ParseObjects(p, at, count, previous, limit, acc) ==
            ParseObjects(p, at + 44, count - 1, Some(id), limit, acc[id := loc])
  {
    ThreeParts(p, at, id, Le(BASE + loc.at, 8), Le(loc.length, 4));
    hide Less, Num, Le, Offset, EncodeObject, Fits;
    FitsU64(BASE + loc.at);
    FitsU32(loc.length);
    assert (BASE + loc.at) % 8 == 0 by { AddAligned(BASE, loc.at); }
  }

  lemma ObjectBytes(p: Bytes, at: nat, ids: seq<Hash>, objects: map<Hash, Location>)
    requires ids != [] && (forall id :: id in ids ==> id in objects)
    requires at + 44 * |ids| <= |p| && p[at..at + 44 * |ids|] == EncodeObjects(ids, objects)
    ensures p[at..at + 44] == EncodeObject(ids[0], objects[ids[0]])
    ensures p[at + 44..at + 44 + 44 * |ids[1..]|] == EncodeObjects(ids[1..], objects)
  {
    hide EncodeObject;
    SplitWhole(p, at, EncodeObject(ids[0], objects[ids[0]]), EncodeObjects(ids[1..], objects));
  }

  function PickObjects(ids: seq<Hash>, objects: map<Hash, Location>): map<Hash, Location> {
    map id | id in ids && id in objects :: objects[id]
  }

  lemma PickObjectsStep(ids: seq<Hash>, objects: map<Hash, Location>, acc: map<Hash, Location>)
    requires ids != [] && ids[0] in objects
    ensures acc[ids[0] := objects[ids[0]]] + PickObjects(ids[1..], objects) == acc + PickObjects(ids, objects)
  {
    assert ids == [ids[0]] + ids[1..];
  }

  lemma ObjectsNone(p: Bytes, at: nat, ids: seq<Hash>, previous: Option<Hash>, limit: nat,
                    objects: map<Hash, Location>, acc: map<Hash, Location>)
    requires ids == []
    ensures ParseObjects(p, at, |ids|, previous, limit, acc) == Some(acc + PickObjects(ids, objects))
  {
    assert acc == acc + PickObjects(ids, objects);
  }

  lemma {:induction false} ObjectsParsed(p: Bytes, at: nat, ids: seq<Hash>, objects: map<Hash, Location>,
                                         previous: Option<Hash>,
                                         limit: nat, acc: map<Hash, Location>)
    requires ObjectsListable(ids, objects, previous, limit) && (forall id :: id in ids ==> id in objects)
    requires BASE + limit < U64
    requires at + 44 * |ids| <= |p| && p[at..at + 44 * |ids|] == EncodeObjects(ids, objects)
    ensures ParseObjects(p, at, |ids|, previous, limit, acc) == Some(acc + PickObjects(ids, objects))
    decreases |ids|
  {
    hide *;
    if ids == [] {
      ObjectsNone(p, at, ids, previous, limit, objects, acc);
    } else {
      ObjectsFirst(ids, objects, previous, limit);
      ObjectBytes(p, at, ids, objects);
      PickObjectsStep(ids, objects, acc);
      ObjectParsed(p, at, |ids|, previous, limit, acc, ids[0], objects[ids[0]]);
      ObjectsParsed(p, at + 44, ids[1..], objects, Some(ids[0]), limit, acc[ids[0] := objects[ids[0]]]);
    }
  }

  ghost predicate RootsListable(keys: seq<Bytes>, roots: map<Bytes, Hash>, previous: Option<Bytes>,
                                objects: set<Hash>) {
    Sorted(keys) && (previous.Some? && keys != [] ==> Less(previous.value, keys[0])) &&
    forall k :: k in keys ==> k in roots && 0 < |k| <= 1024 && roots[k] in objects
  }

  lemma RootsFirst(keys: seq<Bytes>, roots: map<Bytes, Hash>, previous: Option<Bytes>, objects: set<Hash>)
    requires keys != [] && RootsListable(keys, roots, previous, objects)
    ensures var k := keys[0];
            k in roots && 0 < |k| <= 1024 && roots[k] in objects && (previous.Some? ==> Less(previous.value, k))
    ensures RootsListable(keys[1..], roots, Some(keys[0]), objects)
  {
    hide Less;
  }

  lemma RootParsed(p: Bytes, at: nat, count: nat, previous: Option<Bytes>, objects: set<Hash>, acc: map<Bytes, Hash>,
                   key: Bytes, id: Hash)
    requires count > 0 && at + 36 + |key| <= |p| && p[at..at + 36 + |key|] == EncodeRoot(key, id)
    requires 0 < |key| <= 1024 && id in objects && (previous.Some? ==> Less(previous.value, key))
    ensures ParseRoots(p, at, count, previous, objects, acc) ==
            ParseRoots(p, at + 36 + |key|, count - 1, Some(key), objects, acc[key := id])
  {
    ThreeParts(p, at, Le(|key|, 4), key, id);
    hide Less, Num, Le, EncodeRoot, Fits;
    FitsU32(|key|);
  }

  lemma RootBytes(p: Bytes, at: nat, keys: seq<Bytes>, roots: map<Bytes, Hash>)
    requires keys != [] && (forall k :: k in keys ==> k in roots)
    requires at <= |p| && p[at..] == EncodeRoots(keys, roots)
    ensures var n := 36 + |keys[0]|;
            at + n <= |p| && p[at..at + n] == EncodeRoot(keys[0], roots[keys[0]]) &&
            p[at + n..] == EncodeRoots(keys[1..], roots)
  {
    hide EncodeRoot;
    var n := 36 + |keys[0]|;
    SliceOfSlice(p, at, |p|, 0, n);
    SliceOfSlice(p, at, |p|, n, |p| - at);
  }

  function PickRoots(keys: seq<Bytes>, roots: map<Bytes, Hash>): map<Bytes, Hash> {
    map k | k in keys && k in roots :: roots[k]
  }

  lemma PickRootsStep(keys: seq<Bytes>, roots: map<Bytes, Hash>, acc: map<Bytes, Hash>)
    requires keys != [] && keys[0] in roots
    ensures acc[keys[0] := roots[keys[0]]] + PickRoots(keys[1..], roots) == acc + PickRoots(keys, roots)
  {
    assert keys == [keys[0]] + keys[1..];
  }

  lemma RootsNone(p: Bytes, at: nat, keys: seq<Bytes>, roots: map<Bytes, Hash>, previous: Option<Bytes>,
                  objects: set<Hash>, acc: map<Bytes, Hash>)
    requires keys == [] && at <= |p| && p[at..] == EncodeRoots(keys, roots)
    ensures ParseRoots(p, at, |keys|, previous, objects, acc) == Some((|p|, acc + PickRoots(keys, roots)))
  {
    assert acc == acc + PickRoots(keys, roots);
  }

  lemma {:induction false} RootsParsed(p: Bytes, at: nat, keys: seq<Bytes>, roots: map<Bytes, Hash>,
                                       previous: Option<Bytes>,
                                       objects: set<Hash>, acc: map<Bytes, Hash>)
    requires RootsListable(keys, roots, previous, objects) && (forall k :: k in keys ==> k in roots)
    requires at <= |p| && p[at..] == EncodeRoots(keys, roots)
    ensures ParseRoots(p, at, |keys|, previous, objects, acc) == Some((|p|, acc + PickRoots(keys, roots)))
    decreases |keys|
  {
    hide *;
    if keys == [] {
      RootsNone(p, at, keys, roots, previous, objects, acc);
    } else {
      RootsFirst(keys, roots, previous, objects);
      RootBytes(p, at, keys, roots);
      PickRootsStep(keys, roots, acc);
      var k := keys[0];
      RootParsed(p, at, |keys|, previous, objects, acc, k, roots[k]);
      RootsParsed(p, at + 36 + |k|, keys[1..], roots, Some(k), objects, acc[k := roots[k]]);
    }
  }

  lemma {:induction false} RootsLength(keys: seq<Bytes>, roots: map<Bytes, Hash>)
    requires forall k :: k in keys ==> k in roots && 0 < |k|
    ensures |EncodeRoots(keys, roots)| >= 37 * |keys|
  {
    if keys != [] { RootsLength(keys[1..], roots); }
  }

  lemma PayloadParts(mem: Mem)
    requires mem.txn < U64 && |mem.objects| < U32 && |mem.roots| < U32
    ensures var p := Payload(mem);
            var objects := EncodeObjects(SortedHashes(mem.objects.Keys), mem.objects);
            var roots := EncodeRoots(SortedKeys(mem.roots.Keys), mem.roots);
            |p| == 48 + |objects| + |roots| && Num(p[..8]) == mem.txn && p[8..40] == mem.chain &&
            Num(p[40..44]) == |mem.objects| && Num(p[44..48]) == |mem.roots| &&
            p[48..48 + |objects|] == objects && p[48 + |objects|..] == roots
  {
    hide Le, Num, EncodeObjects, EncodeRoots, SortedKeys, SortedHashes, Fits, Sorted;
    var p := Payload(mem);
    assert p[..8] == Le(mem.txn, 8) && p[40..44] == Le(|mem.objects|, 4) && p[44..48] == Le(|mem.roots|, 4);
    FitsU64(mem.txn);
    FitsU32(|mem.objects|);
    FitsU32(|mem.roots|);
  }

  /** What makes a state fit for a checkpoint written at `limit`. */
  ghost predicate Indexable(mem: Mem, limit: nat) {
    (forall id :: id in mem.objects ==> id != NO_HASH && Placed(mem.objects[id], limit)) && Rooted(mem) &&
    mem.txn < U64 && (mem.txn == 0 <==> mem.chain == NO_HASH) && |mem.objects| < U32 && |mem.roots| < U32 &&
    BASE + limit < U64
  }

  lemma ListObjects(mem: Mem, limit: nat, ids: seq<Hash>)
    requires Indexable(mem, limit) && Sorted(ids) && forall id :: id in ids <==> id in mem.objects
    ensures ObjectsListable(ids, mem.objects, None, limit)
    ensures map[] + PickObjects(ids, mem.objects) == mem.objects
  {
    hide Less, Placed, Sorted, Rooted;
  }

  lemma ListRoots(mem: Mem, limit: nat, keys: seq<Bytes>)
    requires Indexable(mem, limit) && Sorted(keys) && forall k :: k in keys <==> k in mem.roots
    ensures RootsListable(keys, mem.roots, None, mem.objects.Keys)
    ensures map[] + PickRoots(keys, mem.roots) == mem.roots && forall k :: k in keys ==> 0 < |k|
  {
    hide Less, Placed, Sorted;
  }

  lemma Decoded(p: Bytes, txn: nat, limit: nat, start: nat, chain: Hash, objects: map<Hash, Location>,
                roots: map<Bytes, Hash>)
    requires |p| >= 48 && Num(p[..8]) == txn && p[8..40] == chain && (txn == 0 <==> chain == NO_HASH)
    requires Num(p[40..44]) == |objects| && Num(p[44..48]) == |roots|
    requires 48 + 44 * |objects| + 37 * |roots| <= |p|
    requires ParseObjects(p, 48, |objects|, None, limit, map[]) == Some(objects)
    requires ParseRoots(p, 48 + 44 * |objects|, |roots|, None, objects.Keys, map[]) == Some((|p|, roots))
    ensures DecodePayload(p, txn, limit, start) == Some(Mem(txn, start, chain, roots, objects))
  {
    hide Num, ParseObjects, ParseRoots;
  }

  lemma ObjectsDecoded(mem: Mem, limit: nat, p: Bytes, ids: seq<Hash>)
    requires Indexable(mem, limit) && Sorted(ids) && (forall id :: id in ids <==> id in mem.objects)
    requires BASE + limit < U64
    requires 48 + 44 * |ids| <= |p| && p[48..48 + 44 * |ids|] == EncodeObjects(ids, mem.objects)
    ensures ParseObjects(p, 48, |ids|, None, limit, map[]) == Some(mem.objects)
  {
    hide *;
    ListObjects(mem, limit, ids);
    ObjectsParsed(p, 48, ids, mem.objects, None, limit, map[]);
  }

  lemma RootsDecoded(mem: Mem, limit: nat, p: Bytes, at: nat, keys: seq<Bytes>)
    requires Indexable(mem, limit) && Sorted(keys) && (forall k :: k in keys <==> k in mem.roots)
    requires at <= |p| && p[at..] == EncodeRoots(keys, mem.roots)
    ensures ParseRoots(p, at, |keys|, None, mem.objects.Keys, map[]) == Some((|p|, mem.roots))
    ensures at + 37 * |keys| <= |p|
  {
    hide *;
    ListRoots(mem, limit, keys);
    RootsParsed(p, at, keys, mem.roots, None, mem.objects.Keys, map[]);
    RootsLength(keys, mem.roots);
  }

  /** A checkpoint's payload decodes to the state it indexed. */
  lemma PayloadDecodes(mem: Mem, limit: nat, start: nat)
    requires Indexable(mem, limit)
    ensures DecodePayload(Payload(mem), mem.txn, limit, start) == Some(mem.(end := start))
  {
    var ids, keys := SortedHashes(mem.objects.Keys), SortedKeys(mem.roots.Keys);
    var p := Payload(mem);
    hide Payload, DecodePayload, ParseObjects, ParseRoots, Num, EncodeObjects, EncodeRoots, SortedHashes, SortedKeys,
         Sorted, Placed, Rooted;
    PayloadParts(mem);
    ObjectsDecoded(mem, limit, p, ids);
    RootsDecoded(mem, limit, p, 48 + 44 * |ids|, keys);
    Decoded(p, mem.txn, limit, start, mem.chain, mem.objects, mem.roots);
  }

  // ---- Publishing a checkpoint ----

  /** `c` names a whole checkpoint record of state `m` inside the committed log. */
  ghost predicate Published(d: Digest, repo: Bytes, body: Bytes, c: Checkpoint, m: Mem) {
    Sealed(d, repo, body, m) && m.end == c.start && c.start == c.at + c.length && c.txn == m.txn &&
    Indexable(m, c.at) && Encodable(CheckpointRec(m)) && c.length == RecordLength(|Payload(m)|) &&
    HEADER <= Offset(c.at) && Offset(c.at) + c.length <= SPAN &&
    c.start <= |body| && body[c.at..c.start] == Encode(d, CheckpointRec(m)) && c.hash == d.sha(Payload(m))
  }

  lemma PublishedLocal(d: Digest, repo: Bytes, body: Bytes, other: Bytes, c: Checkpoint, m: Mem)
    requires Published(d, repo, body, c, m) && c.start <= |other| && body[..c.start] == other[..c.start]
    ensures Published(d, repo, other, c, m)
  {
    hide Sealed, Indexable, Encode, Payload, Offset, RecordLength;
    SealedLocal(d, repo, body, other, m);
    assert body[c.at..c.start] == body[..c.start][c.at..c.start];
    assert other[c.at..c.start] == other[..c.start][c.at..c.start];
  }

  lemma HeaderPresent(d: Digest, repo: Bytes, body: Bytes, end: nat, at: nat)
    requires Headers(d, repo, body, end) && at <= end && Offset(at) != 0
    ensures HeaderAt(d, repo, body, at)
  {
    hide SegmentHeader;
    assert Segment(at) * SPAN < at;
    var h := SegmentHeader(d, repo, Segment(at));
  }

  /** A published checkpoint restores exactly the state it captured. */
  lemma PublishedRestores(d: Digest, repo: Bytes, body: Bytes, c: Checkpoint, m: Mem)
    requires |repo| == 16 && Published(d, repo, body, c, m)
    ensures Restore(d, repo, body, c) == Some(m)
  {
    hide Sealed, Indexable, Headers, Resumes, Rooted, Indexed, Encode, Payload, Offset, RecordLength, ReadRecord,
         DecodePayload, HeaderAt, Sound;
    SealedParts(d, repo, body, m);
    HeaderPresent(d, repo, body, m.end, c.at);
    ReadWhole(d, CheckpointRec(m), body, c.at, |body|);
    PayloadDecodes(m, c.at, c.start);
  }

  lemma PublishedParts(d: Digest, repo: Bytes, body: Bytes, c: Checkpoint, m: Mem)
    requires Published(d, repo, body, c, m)
    ensures |repo| == 16 && m.end <= |body| && Resumes(d, repo, body[..m.end], m)
    ensures Offset(m.end) != 0 ==> HeaderAt(d, repo, body, m.end)
  {
    hide Sealed, Indexable, Headers, Resumes, Rooted, Indexed, Encode, Payload, Offset, RecordLength, HeaderAt, Sound;
    SealedParts(d, repo, body, m);
    if Offset(m.end) != 0 { HeaderPresent(d, repo, body, m.end, m.end); }
  }

  lemma ResumesHere(d: Digest, repo: Bytes, body: Bytes, m: Mem)
    requires |repo| == 16 && m.end <= |body| && Resumes(d, repo, body[..m.end], m)
    ensures Run(d, repo, body, Idle(0, EMPTY)) == Run(d, repo, body, Idle(m.end, m))
  {
    hide Run;
    var prefix, rest := body[..m.end], body[m.end..];
    assert body == prefix + rest;
    assert Run(d, repo, prefix + rest, Idle(0, EMPTY)) == Run(d, repo, prefix + rest, Idle(|prefix|, m));
  }

  /** Starting from any published checkpoint gives the state a full replay gives. */
  lemma RecoverAnchored(d: Digest, repo: Bytes, body: Bytes, mem: Mem, c: Checkpoint, m: Mem)
    requires |repo| == 16 && Good(d, repo, body, mem) && Published(d, repo, body, c, m)
    ensures Recover(d, repo, body, Some(c)) == Some(mem) && Recover(d, repo, body, None) == Some(mem)
  {
    hide Run, Good, Published, Restore, HeaderAt, Resumes, Offset;
    PublishedParts(d, repo, body, c, m);
    PublishedRestores(d, repo, body, c, m);
    FullReplay(d, repo, body, mem);
    ResumesHere(d, repo, body, m);
  }

  /** The guards `checkpoint` checks before it writes. */
  ghost predicate CheckpointOk(d: Digest, mem: Mem) {
    |Payload(mem)| <= MAX_RECORD - 87 && HasRoom(mem.end, RecordLength(|Payload(mem)|))
  }

  ghost function CheckpointAt(d: Digest, mem: Mem): Checkpoint {
    var len := RecordLength(|Payload(mem)|);
    var at := Begin(mem.end, len);
    Checkpoint(at, len, mem.txn, at + len, d.sha(Payload(mem)))
  }

  lemma CheckpointAtParts(d: Digest, mem: Mem)
    ensures var c := CheckpointAt(d, mem);
            c.length == RecordLength(|Payload(mem)|) && c.at == Begin(mem.end, c.length) && c.start == c.at + c.length
  {
    hide Payload, RecordLength, Begin;
  }

  lemma PayloadBounds(mem: Mem)
    requires |Payload(mem)| < U32 && Rooted(mem)
    ensures |mem.objects| < U32 && |mem.roots| < U32 && |Payload(mem)| >= 48
  {
    var ids, keys := SortedHashes(mem.objects.Keys), SortedKeys(mem.roots.Keys);
    assert |Payload(mem)| == 48 + |EncodeObjects(ids, mem.objects)| + |EncodeRoots(keys, mem.roots)|;
    RootsLength(keys, mem.roots);
  }

  lemma CheckpointAccepted(d: Digest, mem: Mem, at: nat)
    requires mem.txn < U64 && |mem.objects| < U32 && |mem.roots| < U32 && RecordLength(|Payload(mem)|) <= MAX_RECORD
    ensures var r := CheckpointRec(mem);
            var len := RecordLength(|Payload(mem)|);
            Encodable(r) && Accept(d, Idle(at, mem), r, Encode(d, r)) == Next(Idle(at + len, mem.(end := at + len)))
  {
    hide Encode, Payload, Num, EncodeObjects, EncodeRoots, SortedHashes, SortedKeys, Sorted, RecordLength;
    PayloadParts(mem);
  }

  lemma IndexableAt(d: Digest, repo: Bytes, body: Bytes, mem: Mem)
    requires Sealed(d, repo, body, mem) && CheckpointOk(d, mem)
    ensures Indexable(mem, Begin(mem.end, RecordLength(|Payload(mem)|)))
    ensures 80 <= RecordLength(|Payload(mem)|) <= MAX_RECORD && RecordLength(|Payload(mem)|) <= SPAN - HEADER
  {
    hide Resumes, Headers, ReadAt, Payload, SegmentAt, Offset;
    PayloadBounds(mem);
    forall id | id in mem.objects
      ensures id != NO_HASH && Placed(mem.objects[id], Begin(mem.end, RecordLength(|Payload(mem)|)))
    {
      assert Stored(d, body, mem.txn, mem.end, id, mem.objects[id]);
    }
  }

  lemma CheckpointFold(d: Digest, mem: Mem)
    requires mem.txn < U64 && Rooted(mem) && 80 <= RecordLength(|Payload(mem)|) <= MAX_RECORD
    ensures var recs, c := [CheckpointRec(mem)], CheckpointAt(d, mem);
            |EncodeAll(d, recs)| == c.length && EncodeAll(d, recs) == Encode(d, CheckpointRec(mem)) &&
            Quiet(d, Idle(c.at, mem), recs) &&
            Fold(d, Idle(c.at, mem), recs) == Next(Idle(c.start, mem.(end := c.start))) &&
            Encodable(CheckpointRec(mem))
  {
    hide Encode, Accept, Payload, Begin, EncodeAll, Quiet, Fold, RecordLength, Rooted;
    PayloadBounds(mem);
    EncodeAllOne(d, CheckpointRec(mem));
    CheckpointAccepted(d, mem, CheckpointAt(d, mem).at);
    FoldOne(d, Idle(CheckpointAt(d, mem).at, mem), CheckpointRec(mem));
  }

  lemma SealedNumbers(d: Digest, repo: Bytes, body: Bytes, mem: Mem)
    requires Sealed(d, repo, body, mem)
    ensures mem.txn < U64 && (mem.txn == 0 <==> mem.chain == NO_HASH)
  {
    hide Resumes, Headers, Indexed, Rooted, Sound;
  }

  lemma IndexedLater(d: Digest, body: Bytes, body': Bytes, mem: Mem, end: nat)
    requires mem.end <= |body| && mem.end <= |body'| && body[..mem.end] == body'[..mem.end] && mem.end <= end
    requires Indexed(d, body, mem) && Rooted(mem)
    ensures Indexed(d, body', mem.(end := end)) && Rooted(mem.(end := end))
  {
    hide Stored;
    assert mem.objects == mem.objects + map[];
    NothingStored(d, body', mem.txn, end);
    IndexedCommit(d, body, body', mem, map[], mem.(end := end));
  }

  lemma PayloadIgnoresEnd(mem: Mem, end: nat)
    ensures Payload(mem.(end := end)) == Payload(mem) && CheckpointRec(mem.(end := end)) == CheckpointRec(mem)
  {
  }

  lemma PublishedIntro(d: Digest, repo: Bytes, body: Bytes, mem: Mem)
    requires var c := CheckpointAt(d, mem);
             Good(d, repo, body, mem.(end := c.start)) && c.start == |body| &&
             body[c.at..] == Encode(d, CheckpointRec(mem)) &&
             Indexable(mem, c.at) && Encodable(CheckpointRec(mem)) && HEADER <= Offset(c.at) &&
             Offset(c.at) + c.length <= SPAN
    ensures var c := CheckpointAt(d, mem); Published(d, repo, body, c, mem.(end := c.start))
  {
    hide Sealed, Encode, Payload, Offset, RecordLength, Begin, Placed, TailIgnored;
    var c := CheckpointAt(d, mem);
    PayloadIgnoresEnd(mem, c.start);
    assert body[c.at..c.start] == body[c.at..];
  }

  /** Appending a checkpoint changes no logical state, and what it writes is published. */
  lemma CheckpointGood(d: Digest, repo: Bytes, body: Bytes, mem: Mem)
    requires Sealed(d, repo, body, mem) && CheckpointOk(d, mem)
    ensures |repo| == 16 && mem.end <= |body| &&
            var next, c := Appended(d, repo, body, mem, [CheckpointRec(mem)]), CheckpointAt(d, mem);
            |next| == c.start && Good(d, repo, next, mem.(end := c.start)) &&
            Published(d, repo, next, c, mem.(end := c.start))
  {
    hide *;
    var recs, c := [CheckpointRec(mem)], CheckpointAt(d, mem);
    CheckpointAtParts(d, mem);
    SealedParts(d, repo, body, mem);
    SealedNumbers(d, repo, body, mem);
    IndexableAt(d, repo, body, mem);
    CheckpointFold(d, mem);
    var next, mem' := Appended(d, repo, body, mem, recs), mem.(end := c.start);
    AppendedSlice(d, repo, body, mem, recs);
    ResumesAppend(d, repo, body[..mem.end], mem, recs, mem');
    HeadersAppend(d, repo, body, mem.end, recs);
    IndexedLater(d, body, next, mem, c.start);
    EndAligned(d, repo, body, mem, recs);
    GoodIntro(d, repo, next, mem');
    HeadersOffset(d, repo, body, mem.end);
    BeginAligned(mem.end, c.length);
    BeginInSegment(mem.end, c.length);
    PublishedIntro(d, repo, next, mem);
  }

  lemma CheckpointTornGood(d: Digest, repo: Bytes, body: Bytes, mem: Mem, torn: Bytes)
    requires |repo| == 16 && mem.end <= |body| && Sealed(d, repo, body, mem) && CheckpointOk(d, mem)
    requires var whole := Appended(d, repo, body, mem, [CheckpointRec(mem)]);
             mem.end <= |torn| < |whole| && torn == whole[..|torn|]
    ensures Good(d, repo, torn, mem)
  {
    hide *;
    SealedParts(d, repo, body, mem);
    SealedNumbers(d, repo, body, mem);
    IndexableAt(d, repo, body, mem);
    CheckpointFold(d, mem);
    CheckpointAtParts(d, mem);
    TornGood(d, repo, body, mem, [CheckpointRec(mem)], torn);
  }
}
