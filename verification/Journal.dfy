/** The journal object: its fields, its replay loop, and its writers, any of whose
    writes may stop part-way (daemon/journal.cpp). */
module Journal {
  import opened Bytes
  import opened JournalCodec
  import opened JournalReplay
  import opened JournalLog
  import opened JournalTx
  import opened JournalWriter
  import opened JournalStore
  import opened JournalCheckpoint

  /** Refused leaves everything as it was; Failed poisons the journal until it is reopened. */
  datatype Status = Done | Refused | Failed

  /** The replay loop computes what the phase machine specifies. */
  method Replay(d: Digest, repo: Bytes, body: Bytes, start: Cursor) returns (mem: Option<Mem>)
    requires |repo| == 16 && start.at <= |body|
    ensures mem == MemOf(Run(d, repo, body, start))
  {
    var c := start;
    while c.at < |body|
      invariant c.at <= |body| && Run(d, repo, body, c) == Run(d, repo, body, start)
      decreases |body| - c.at
    {
      match StepAt(d, repo, body, c) {
        case Reject => return None;
        case Stop => return Some(c.mem);
        case Next(c') => c := c';
      }
    }
    return Some(c.mem);
  }

  lemma {:induction false} EntriesSnoc(keys: seq<Bytes>, k: Bytes, changes: Changes)
    requires (forall x :: x in keys ==> x in changes) && k in changes
    ensures (forall x :: x in keys + [k] ==> x in changes) &&
            EncodeEntries(keys + [k], changes) == EncodeEntries(keys, changes) + EncodeEntry(k, changes[k])
  {
    hide EncodeEntry;
    if keys == [] {
      assert keys + [k] == [k] && [k][1..] == [];
    } else {
      EntriesSnoc(keys[1..], k, changes);
      assert (keys + [k])[1..] == keys[1..] + [k];
    }
  }

  /** Builds the prepare payload entry by entry. */
  method BuildPrepare(mem: Mem, changes: Changes) returns (p: Bytes)
    ensures p == BatchPrepare(mem, changes)
  {
    hide EncodeEntry, Le, SortedKeys, Sorted;
    var keys := ListKeys(changes.Keys);
    p := mem.chain + Le(mem.txn, 8) + Le(|changes|, 4);
    ghost var head := p;
    for i := 0 to |keys|
      invariant forall x :: x in keys[..i] ==> x in changes
      invariant p == head + EncodeEntries(keys[..i], changes)
    {
      assert keys[i] in keys;
      EntriesSnoc(keys[..i], keys[i], changes);
      assert keys[..i + 1] == keys[..i] + [keys[i]];
      p := p + EncodeEntry(keys[i], changes[keys[i]]);
    }
    assert keys[..|keys|] == keys;
  }

  /** Validates the mutations one by one and accumulates the batch. */
  method GatherMutations(d: Digest, body: Bytes, mem: Mem, muts: seq<Mutation>) returns (g: Option<Gathered>)
    ensures g == GatherAll(d, body, mem, muts)
  {
    hide Gather;
    g := Some(NOTHING);
    for i := 0 to |muts|
      invariant g == GatherAll(d, body, mem, muts[..i])
    {
      assert muts[..i + 1][..i] == muts[..i] && muts[..i + 1][i] == muts[i];
      if g.Some? { g := Gather(d, body, mem, muts[i], g.value); }
    }
    assert muts[..|muts|] == muts;
  }

  method ListHashes(s: set<Hash>) returns (ids: seq<Hash>)
    ensures ids == SortedHashes(s)
  {
    ids := [];
    var left := s;
    while left != {}
      invariant left <= s && Sorted(ids) && (forall k :: k in ids <==> k in s - left)
      invariant forall k, x :: k in ids && x in left ==> Less(k, x)
      decreases |left|
    {
      ghost var least := LeastExists(left);
      assert least in left;
      var id :| id in left && forall x | x in left :: x == id || Less(id, x);
      ids := ids + [id];
      left := left - {id};
    }
    SortedUnique(ids, SortedHashes(s));
  }

  method ListValues(values: map<Hash, Bytes>) returns (vs: seq<Bytes>)
    ensures vs == ValueList(values)
  {
    hide SortedHashes, Sorted;
    var ids := ListHashes(values.Keys);
    vs := [];
    for i := 0 to |ids|
      invariant |vs| == i && forall j :: 0 <= j < i ==> ids[j] in values && vs[j] == values[ids[j]]
    {
      assert ids[i] in values.Keys;
      vs := vs + [values[ids[i]]];
    }
  }

  lemma {:induction false} ObjectsSnoc(ids: seq<Hash>, id: Hash, objects: map<Hash, Location>)
    requires (forall x :: x in ids ==> x in objects) && id in objects
    ensures (forall x :: x in ids + [id] ==> x in objects) &&
            EncodeObjects(ids + [id], objects) == EncodeObjects(ids, objects) + EncodeObject(id, objects[id])
  {
    hide EncodeObject;
    if ids == [] {
      assert ids + [id] == [id] && [id][1..] == [];
    } else {
      ObjectsSnoc(ids[1..], id, objects);
      assert (ids + [id])[1..] == ids[1..] + [id];
    }
  }

  lemma {:induction false} RootsSnoc(keys: seq<Bytes>, k: Bytes, roots: map<Bytes, Hash>)
    requires (forall x :: x in keys ==> x in roots) && k in roots
    ensures (forall x :: x in keys + [k] ==> x in roots) &&
            EncodeRoots(keys + [k], roots) == EncodeRoots(keys, roots) + EncodeRoot(k, roots[k])
  {
    hide EncodeRoot;
    if keys == [] {
      assert keys + [k] == [k] && [k][1..] == [];
    } else {
      RootsSnoc(keys[1..], k, roots);
      assert (keys + [k])[1..] == keys[1..] + [k];
    }
  }

  method BuildObjects(objects: map<Hash, Location>) returns (p: Bytes)
    ensures p == EncodeObjects(SortedHashes(objects.Keys), objects)
  {
    hide EncodeObject, EncodeObjects, SortedHashes, Sorted;
    var ids := ListHashes(objects.Keys);
    p := [];
    NoObjects(objects);
    for i := 0 to |ids|
      invariant (forall x :: x in ids[..i] ==> x in objects) && p == EncodeObjects(ids[..i], objects)
    {
      assert ids[i] in ids;
      ObjectsSnoc(ids[..i], ids[i], objects);
      assert ids[..i + 1] == ids[..i] + [ids[i]];
      p := p + EncodeObject(ids[i], objects[ids[i]]);
    }
    assert ids[..|ids|] == ids;
  }

  lemma NoObjects(objects: map<Hash, Location>)
    ensures EncodeObjects([], objects) == []
  {
  }

  method BuildRoots(roots: map<Bytes, Hash>) returns (p: Bytes)
    ensures p == EncodeRoots(SortedKeys(roots.Keys), roots)
  {
    hide EncodeRoot, EncodeRoots, SortedKeys, Sorted;
    var keys := ListKeys(roots.Keys);
    p := [];
    NoRoots(roots);
    for i := 0 to |keys|
      invariant (forall x :: x in keys[..i] ==> x in roots) && p == EncodeRoots(keys[..i], roots)
    {
      assert keys[i] in keys;
      RootsSnoc(keys[..i], keys[i], roots);
      assert keys[..i + 1] == keys[..i] + [keys[i]];
      p := p + EncodeRoot(keys[i], roots[keys[i]]);
    }
    assert keys[..|keys|] == keys;
  }

  lemma NoRoots(roots: map<Bytes, Hash>)
    ensures EncodeRoots([], roots) == []
  {
  }

  /** Builds the checkpoint payload: objects by identity, then roots by name. */
  method BuildPayload(mem: Mem) returns (p: Bytes)
    ensures p == Payload(mem)
  {
    hide EncodeObjects, EncodeRoots, Le, SortedKeys, SortedHashes, Sorted;
    var objects := BuildObjects(mem.objects);
    var roots := BuildRoots(mem.roots);
    p := Le(mem.txn, 8) + mem.chain + Le(|mem.objects|, 4) + Le(|mem.roots|, 4) + objects + roots;
  }

  /** Opens any file: the anchored checkpoint, if there is one, then the log after it. */
  method RecoverFile(d: Digest, repo: Bytes, body: Bytes, anchored: Option<Checkpoint>) returns (found: Option<Mem>)
    requires |repo| == 16
    ensures found == Recover(d, repo, body, anchored)
  {
    hide Run, Restore, HeaderAt, Offset;
    if anchored.None? {
      found := Replay(d, repo, body, Idle(0, EMPTY));
      return;
    }
    var restored := Restore(d, repo, body, anchored.value);
    if restored.None? { return None; }
    var mem := restored.value;
    if mem.end > |body| || (Offset(mem.end) != 0 && !HeaderAt(d, repo, body, mem.end)) { return None; }
    found := Replay(d, repo, body, Idle(mem.end, mem));
  }

  lemma RecoversCommitted(d: Digest, repo: Bytes, body: Bytes, anchored: Option<Checkpoint>, committed: Mem)
    requires |repo| == 16 && Good(d, repo, body, committed)
    requires anchored.Some? ==> exists m :: Published(d, repo, body, anchored.value, m)
    ensures Recover(d, repo, body, anchored) == Some(committed)
  {
    hide Good, Published, Run, Restore;
    if anchored.Some? {
      var m :| Published(d, repo, body, anchored.value, m);
      RecoverAnchored(d, repo, body, committed, anchored.value, m);
    } else {
      FullReplay(d, repo, body, committed);
    }
  }

  class Journal {
    const d: Digest
    const repo: Bytes
    var body: Bytes
    var mem: Mem
    var tail: bool
    var poisoned: bool

    ghost predicate Valid()
      reads this
    {
      |repo| == 16 && Good(d, repo, body, mem) && mem.end <= |body| && (tail <==> mem.end != |body|)
    }

    /** Opens a good file, from the start or from any checkpoint published in it, and finds
        its committed state. */
    constructor (digest: Digest, repository: Bytes, file: Bytes, anchored: Option<Checkpoint>, ghost committed: Mem)
      requires |repository| == 16 && Good(digest, repository, file, committed)
      requires anchored.Some? ==> exists m :: Published(digest, repository, file, anchored.value, m)
      ensures Valid() && !poisoned && d == digest && repo == repository && body == file && mem == committed
    {
      hide Good, Published, Recover;
      d, repo, body := digest, repository, file;
      var found := RecoverFile(digest, repository, file, anchored);
      RecoversCommitted(digest, repository, file, anchored, committed);
      GoodEnds(digest, repository, file, committed);
      mem := found.value;
      tail := |file| != found.value.end;
      poisoned := false;
    }

    /** Appends bytes at the end of the file; a failing device keeps any part of them. */
    method Write(bytes: Bytes) returns (ok: bool)
      modifies this`body
      ensures exists n: nat :: n <= |bytes| && body == old(body) + bytes[..n]
      ensures ok ==> body == old(body) + bytes
    {
      var n: nat :| n <= |bytes|;
      var sync: bool := *;
      body := body + bytes[..n];
      ok := sync && n == |bytes|;
      assert bytes[..|bytes|] == bytes;
    }

    /** Cuts off any uncommitted tail and appends records, with a write barrier
        in front of the last one. */
    method AppendRecords(first: seq<Rec>, last: Rec) returns (ok: bool)
      requires |repo| == 16 && mem.end <= |body| && (tail <==> mem.end != |body|)
      modifies this`body
      ensures mem.end <= |body| <= |Appended(d, repo, old(body), mem, first + [last])|
      ensures body == Appended(d, repo, old(body), mem, first + [last])[..|body|]
      ensures ok ==> body == Appended(d, repo, old(body), mem, first + [last])
    {
      hide *;
      ghost var start := body;
      if tail { body := body[..mem.end]; }
      assert body == start[..mem.end];
      var batch := EncodeAll(d, first);
      var sealing := Encode(d, last);
      var gap := Gap(d, repo, mem.end, |batch| + |sealing|);
      ghost var whole := Appended(d, repo, start, mem, first + [last]);
      AppendedParts(d, repo, start, mem, first, last);
      ok := Write(gap);
      PrefixOf(start[..mem.end], gap, batch + sealing, body, whole);
      if ok {
        ok := Write(batch);
        PrefixOf(start[..mem.end] + gap, batch, sealing, body, whole);
        if ok {
          ok := Write(sealing);
          PrefixOf(start[..mem.end] + gap + batch, sealing, [], body, whole);
        }
      }
    }

    /** Publishes one new root value, or nothing, or (Failed) leaves that to the next opening. */
    method Put(key: Bytes, value: Bytes) returns (status: Status)
      requires Valid() && !poisoned
      modifies this
      ensures status.Refused? <==> !PutEnabled(d, old(mem), key, value)
      ensures status.Refused? ==> unchanged(this)
      ensures status.Done? ==>
        Valid() && !poisoned && mem.txn == old(mem.txn) + 1 &&
        mem.roots == old(mem.roots)[key := ObjectHash(d, value)] &&
        ReadObject(d, body, mem, ObjectHash(d, value)) == Some(value)
      ensures status.Failed? ==>
        poisoned && (Good(d, repo, body, old(mem)) ||
                     (exists next :: Good(d, repo, body, next) && next.txn == old(mem.txn) + 1 &&
                                     next.roots == old(mem.roots)[key := ObjectHash(d, value)]))
    {
      hide Good, Sealed, TxOk, TxMem, PutPrepare, Batch, EncodeAll, HasRoom, Seal, ObjectHash, Appended, ApplyChanges,
           ReadAt;
      GoodSealed(d, repo, body, mem);
      var prepare := PutPrepare(d, mem, key, value);
      var size := |EncodeAll(d, Batch(d, mem, [value], PREPARE_ONE, prepare))|;
      if !(0 < |key| <= 1024 && |value| <= MAX_PAYLOAD && mem.txn + 1 < U64) { return Refused; }
      if !HasRoom(mem.end, size + COMMIT_LENGTH) {
        return Refused;
      }
      var changes: Changes := map[key := Some(ObjectHash(d, value))];
      PutOk(d, mem, key, value);
      ApplyOne(mem.roots, key, ObjectHash(d, value));
      CommitParts(d, mem, [value], PREPARE_ONE, prepare, changes);
      PutReads(d, repo, body, mem, value, PREPARE_ONE, prepare, changes);
      status := CommitBatch([value], PREPARE_ONE, prepare, changes);
    }

    /** Publishes a whole batch against the sequence the caller saw, or nothing. */
    method Transact(expected: nat, muts: seq<Mutation>) returns (status: Status)
      requires Valid() && !poisoned
      modifies this
      ensures status.Refused? <==> !TransactEnabled(d, old(body), old(mem), expected, muts)
      ensures status.Refused? ==> unchanged(this)
      ensures status.Done? ==>
        Valid() && !poisoned && mem.txn == expected + 1 && Applied(d, muts, old(mem.roots), mem.roots)
      ensures status.Failed? ==>
        poisoned && (Good(d, repo, body, old(mem)) ||
                     (exists next :: Good(d, repo, body, next) && next.txn == expected + 1 &&
                                     Applied(d, muts, old(mem.roots), next.roots)))
    {
      hide Good, Sealed, TxOk, TxMem, BatchPrepare, Batch, EncodeAll, HasRoom, Seal, GatherAll, ValueList, Appended,
           ApplyChanges, Acceptable, Applied, Meant, OnceEach;
      GoodSealed(d, repo, body, mem);
      GatherAccepts(d, body, mem, muts);
      if expected != mem.txn || mem.txn + 1 >= U64 || !(0 < |muts| <= 64) { return Refused; }
      var g := GatherMutations(d, body, mem, muts);
      if g.None? { return Refused; }
      var values := ListValues(g.value.values);
      var prepare := BuildPrepare(mem, g.value.changes);
      var size := |EncodeAll(d, Batch(d, mem, values, KindOf(g.value), prepare))|;
      if size > MAX_BATCH || !HasRoom(mem.end, size + COMMIT_LENGTH) { return Refused; }
      TransactOk(d, body, mem, muts);
      CommitParts(d, mem, values, KindOf(g.value), prepare, g.value.changes);
      GatherMeaning(d, body, mem, muts);
      MeantApplied(d, muts, g.value.changes, mem.roots);
      status := CommitBatch(values, KindOf(g.value), prepare, g.value.changes);
    }

    /** Appends an index of the current state; only the committed end moves. */
    method TakeCheckpoint() returns (status: Status, c: Checkpoint)
      requires Valid() && !poisoned
      modifies this
      ensures status.Refused? <==> !CheckpointOk(d, old(mem))
      ensures status.Refused? ==> unchanged(this)
      ensures status.Done? ==>
        Valid() && !poisoned && c == CheckpointAt(d, old(mem)) && mem == old(mem).(end := c.start) &&
        Published(d, repo, body, c, mem)
      ensures status.Failed? ==>
        poisoned &&
        (Good(d, repo, body, old(mem)) || Good(d, repo, body, old(mem).(end := CheckpointAt(d, old(mem)).start)))
    {
      hide Good, Sealed, HasRoom, RecordLength, Begin, Payload, Appended, Published;
      GoodSealed(d, repo, body, mem);
      var payload := BuildPayload(mem);
      var len := RecordLength(|payload|);
      var at := Begin(mem.end, len);
      c := Checkpoint(at, len, mem.txn, at + len, d.sha(payload));
      if |payload| > MAX_RECORD - 87 || !HasRoom(mem.end, len) { return Refused, c; }
      CheckpointGood(d, repo, body, mem);
      ghost var before, rec := body, CheckpointRec(mem);
      ghost var whole := Appended(d, repo, body, mem, [rec]);
      assert [] + [rec] == [rec];
      var ok := AppendRecords([], Rec(CHECKPOINT, mem.txn, NO_HASH, payload));
      if |body| < |whole| {
        CheckpointTornGood(d, repo, before, mem, body);
      } else {
        assert body == whole;
      }
      if ok {
        mem, tail := mem.(end := c.start), false;
        return Done, c;
      }
      poisoned := true;
      return Failed, c;
    }

    method CommitBatch(values: seq<Bytes>, kind: nat, prepare: Bytes, changes: Changes) returns (status: Status)
      requires Valid() && !poisoned && TxOk(d, mem, values, kind, prepare, changes)
      modifies this
      ensures !status.Refused?
      ensures status.Done? ==>
        Valid() && !poisoned && mem == TxMem(d, old(mem), values, kind, prepare, changes) &&
        body == Appended(d, repo, old(body), old(mem), TxRecs(d, old(mem), values, kind, prepare))
      ensures status.Failed? ==>
        poisoned &&
        (Good(d, repo, body, old(mem)) || Good(d, repo, body, TxMem(d, old(mem), values, kind, prepare, changes)))
    {
      hide Good, Sealed, TxOk, Places, Batch, EncodeAll, HasRoom, Seal, Appended, ApplyChanges, Quiet, Fold, Begin,
           DecodePrepare;
      GoodSealed(d, repo, body, mem);
      var recs := Batch(d, mem, values, kind, prepare);
      var last := Rec(COMMIT, mem.txn + 1, NO_HASH, Seal(d, mem, values, kind, prepare));
      var next := TxMem(d, mem, values, kind, prepare, changes);
      CommitGood(d, repo, body, mem, values, kind, prepare, changes);
      TxFacts(d, mem, values, kind, prepare, changes);
      TxFold(d, mem, values, kind, prepare, changes);
      ghost var whole := Appended(d, repo, body, mem, TxRecs(d, mem, values, kind, prepare));
      ghost var before := body;
      var ok := AppendRecords(recs, last);
      if |body| < |whole| {
        TornGood(d, repo, before, mem, TxRecs(d, mem, values, kind, prepare), body);
      } else {
        assert body == whole;
      }
      if ok {
        mem, tail := next, false;
        return Done;
      }
      poisoned := true;
      return Failed;
    }
  }

  lemma PrefixOf(start: Bytes, part: Bytes, rest: Bytes, body: Bytes, whole: Bytes)
    requires whole == start + part + rest
    requires exists n: nat :: n <= |part| && body == start + part[..n]
    ensures |start| <= |body| <= |whole| && body == whole[..|body|]
  {
    var n: nat :| n <= |part| && body == start + part[..n];
    assert (start + part + rest)[..|start| + n] == start + part[..n];
  }

  lemma GoodEnds(d: Digest, repo: Bytes, body: Bytes, mem: Mem)
    requires Good(d, repo, body, mem)
    ensures mem.end <= |body|
  {
    hide Resumes, Headers, Indexed, Rooted, TailIgnored;
  }

  lemma GoodSealed(d: Digest, repo: Bytes, body: Bytes, mem: Mem)
    requires Good(d, repo, body, mem)
    ensures Sealed(d, repo, body, mem) && mem.end <= |body| && |repo| == 16
  {
    hide Headers, Indexed, Rooted, Run;
  }

  lemma ApplyOne(roots: map<Bytes, Hash>, key: Bytes, id: Hash)
    ensures ApplyChanges(roots, map[key := Some(id)]) == roots[key := id]
  {
  }

  lemma CommitParts(d: Digest, mem: Mem, values: seq<Bytes>, kind: nat, prepare: Bytes, changes: Changes)
    ensures var next := TxMem(d, mem, values, kind, prepare, changes);
            next.txn == mem.txn + 1 && next.roots == ApplyChanges(mem.roots, changes)
  {
    hide EncodeAll, Places, Begin, ApplyChanges;
  }

  lemma AppendedParts(d: Digest, repo: Bytes, body: Bytes, mem: Mem, first: seq<Rec>, last: Rec)
    requires |repo| == 16 && mem.end <= |body|
    ensures var batch, sealing := EncodeAll(d, first), Encode(d, last);
            var gap := Gap(d, repo, mem.end, |batch| + |sealing|);
            var whole := Appended(d, repo, body, mem, first + [last]);
            whole == body[..mem.end] + gap + (batch + sealing) && whole == (body[..mem.end] + gap) + batch + sealing &&
            whole == (body[..mem.end] + gap + batch) + sealing + []
  {
    hide Encode, EncodeAll, Gap;
    EncodeAllConcat(d, first, [last]);
    EncodeAllOne(d, last);
    var batch, sealing := EncodeAll(d, first), Encode(d, last);
    Associate(body[..mem.end], Gap(d, repo, mem.end, |batch| + |sealing|), batch, sealing);
  }

  lemma Associate(a: Bytes, b: Bytes, c: Bytes, e: Bytes)
    ensures a + (b + (c + e)) == a + b + (c + e)
    ensures a + b + (c + e) == (a + b) + c + e
    ensures (a + b) + c + e == (a + b + c) + e + []
  {
  }
}
