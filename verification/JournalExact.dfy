/** Recovery accepts nothing but what a writer writes: every byte it reads over is a segment
    header, zero fill, an agreeing checkpoint hint or one whole sealed transaction
    (daemon/journal.cpp). */
module JournalExact {
  import opened Bytes
  import opened JournalCodec
  import opened JournalReplay
  import opened JournalLog
  import opened JournalTx
  import opened JournalWriter

  // ---- Prepare payloads ----

  lemma Together(p: Bytes, at: nat, b: nat, c: nat, e: nat)
    requires at <= b <= c <= e <= |p|
    ensures p[at..e] == p[at..b] + p[b..c] + p[c..e]
  {
  }

  /** An entry the parser takes is the encoding of one change. */
  lemma EntryExact(p: Bytes, at: nat, n: nat, change: Option<Hash>)
    requires at + 40 + n <= |p| && Num(p[at + 4..at + 8]) == n
    requires Num(p[at..at + 4]) == if change.Some? then 1 else 2
    requires p[at + 8 + n..at + 40 + n] == if change.Some? then change.value else NO_HASH
    ensures p[at..at + 40 + n] == EncodeEntry(p[at + 8..at + 8 + n], change)
  {
    hide Le, Num;
    NumIs(p[at..at + 4], if change.Some? then 1 else 2);
    NumIs(p[at + 4..at + 8], n);
    Together(p, at, at + 4, at + 8, at + 40 + n);
    Together(p, at + 8, at + 8 + n, at + 40 + n, at + 40 + n);
  }

  /** The keys a parse went over. */
  ghost predicate Parsed(p: Bytes, at: nat, keys: seq<Bytes>, previous: Option<Bytes>, mem: Mem, known: set<Hash>,
                         acc: Changes, end: nat, changes: Changes) {
    at <= end <= |p| && Listable(keys, changes, previous, mem, known) && (forall k :: k in keys ==> k in changes) &&
    p[at..end] == EncodeEntries(keys, changes) && changes.Keys == acc.Keys + Elements(keys) &&
    forall k :: k in acc && k !in keys ==> changes[k] == acc[k]
  }

  lemma ParsedNone(p: Bytes, at: nat, previous: Option<Bytes>, mem: Mem, known: set<Hash>, acc: Changes)
    requires at <= |p|
    ensures Parsed(p, at, [], previous, mem, known, acc, at, acc)
  {
    assert Elements<Bytes>([]) == {};
  }

  lemma SortedCons(k: Bytes, keys: seq<Bytes>)
    requires Sorted(keys) && (keys != [] ==> Less(k, keys[0]))
    ensures Sorted([k] + keys) && k !in keys
  {
    var all := [k] + keys;
    forall j | 0 <= j < |keys| ensures Less(k, keys[j]) { if j > 0 { LessTransitive(k, keys[0], keys[j]); } }
    forall i, j | 0 <= i < j < |all| ensures Less(all[i], all[j]) { }
    if k in keys { LessIrreflexive(k); }
  }

  lemma ListableCons(key: Bytes, keys: seq<Bytes>, changes: Changes, previous: Option<Bytes>, mem: Mem,
                     known: set<Hash>)
    requires Listable(keys, changes, Some(key), mem, known) && key in changes && 0 < |key| <= 1024
    requires previous.Some? ==> Less(previous.value, key)
    requires if changes[key].Some? then changes[key].value in known else key in mem.roots
    ensures Listable([key] + keys, changes, previous, mem, known) && key !in keys
  {
    hide Less, Sorted;
    SortedCons(key, keys);
  }

  lemma EntriesCons(p: Bytes, at: nat, key: Bytes, keys: seq<Bytes>, changes: Changes, end: nat)
    requires key in changes && (forall k :: k in keys ==> k in changes) && at + 40 + |key| <= end <= |p|
    requires p[at..at + 40 + |key|] == EncodeEntry(key, changes[key])
    requires p[at + 40 + |key|..end] == EncodeEntries(keys, changes)
    ensures (forall k :: k in [key] + keys ==> k in changes) && p[at..end] == EncodeEntries([key] + keys, changes)
  {
    hide EncodeEntry;
    assert ([key] + keys)[1..] == keys;
    Together(p, at, at + 40 + |key|, end, end);
  }

  lemma ParsedCons(p: Bytes, at: nat, key: Bytes, change: Option<Hash>, keys: seq<Bytes>, previous: Option<Bytes>,
                   mem: Mem, known: set<Hash>, acc: Changes, end: nat, changes: Changes)
    requires Parsed(p, at + 40 + |key|, keys, Some(key), mem, known, acc[key := change], end, changes)
    requires p[at..at + 40 + |key|] == EncodeEntry(key, change) && 0 < |key| <= 1024
    requires previous.Some? ==> Less(previous.value, key)
    requires if change.Some? then change.value in known else key in mem.roots
    ensures Parsed(p, at, [key] + keys, previous, mem, known, acc, end, changes)
  {
    hide Less, EncodeEntry, EncodeEntries, Listable;
    assert key in changes;
    AfterKey(key, keys, changes, mem, known);
    assert changes[key] == change;
    ListableCons(key, keys, changes, previous, mem, known);
    EntriesCons(p, at, key, keys, changes, end);
    assert Elements([key] + keys) == {key} + Elements(keys);
  }

  lemma AfterKey(key: Bytes, keys: seq<Bytes>, changes: Changes, mem: Mem, known: set<Hash>)
    requires Listable(keys, changes, Some(key), mem, known)
    ensures key !in keys
  {
    SortedCons(key, keys);
  }

  lemma {:induction false} EntriesExact(p: Bytes, at: nat, count: nat, previous: Option<Bytes>, mem: Mem,
                                        known: set<Hash>, acc: Changes)
    returns (keys: seq<Bytes>)
    requires at <= |p| && ParseEntries(p, at, count, previous, mem, known, acc).Some?
    ensures |keys| == count
    ensures var (end, changes) := ParseEntries(p, at, count, previous, mem, known, acc).value;
      Parsed(p, at, keys, previous, mem, known, acc, end, changes)
    decreases count
  {
    hide Less, Num, Parsed, EncodeEntry;
    if count == 0 {
      ParsedNone(p, at, previous, mem, known, acc);
      return [];
    }
    var n := Num(p[at + 4..at + 8]);
    var key, id: Hash := p[at + 8..at + 8 + n], p[at + 8 + n..at + 40 + n];
    var change := if Num(p[at..at + 4]) == 1 then Some(id) else None;
    EntryExact(p, at, n, change);
    var rest := EntriesExact(p, at + 40 + n, count - 1, Some(key), mem, known, acc[key := change]);
    var (end, changes) := ParseEntries(p, at, count, previous, mem, known, acc).value;
    ParsedCons(p, at, key, change, rest, previous, mem, known, acc, end, changes);
    return [key] + rest;
  }

  /** A prepare payload says which changes it makes in one way only. */
  ghost predicate Says(kind: nat, p: Bytes, mem: Mem, pending: set<Hash>, changes: Changes) {
    if kind == PREPARE_ONE then
      exists key, id: Hash ::
        changes == map[key := Some(id)] && pending == {id} && 0 < |key| <= 1024 &&
        p == mem.chain + Le(|key|, 4) + key + id
    else
      p == BatchPrepare(mem, changes) && 0 < |changes| <= 64 && Referenced(changes, pending) == pending &&
      Possible(mem, changes, pending, kind == PREPARE_REFERENCES)
  }
  lemma SameSize(a: set<Hash>, b: set<Hash>)
    requires a <= b && |a| == |b|
    ensures a == b
  {
    assert b == a + (b - a);
    assert |b - a| == 0;
  }

  lemma OneExact(p: Bytes, mem: Mem, pending: set<Hash>)
    requires DecodePrepare(PREPARE_ONE, p, mem, pending).Some?
    ensures Says(PREPARE_ONE, p, mem, pending, DecodePrepare(PREPARE_ONE, p, mem, pending).value)
  {
    hide Le, Num;
    var n := Num(p[32..36]);
    var key, id: Hash := p[36..36 + n], p[36 + n..68 + n];
    NumIs(p[32..36], n);
    assert p == p[..32] + p[32..36] + key + id;
    SameSize({id}, pending);
  }

  lemma BatchExact(p: Bytes, mem: Mem, keys: seq<Bytes>, changes: Changes)
    requires |p| >= 44 && p[..32] == mem.chain && Num(p[32..40]) == mem.txn && Num(p[40..44]) == |keys|
    requires Sorted(keys) && (forall k :: k in keys <==> k in changes) && p[44..] == EncodeEntries(keys, changes)
    ensures p == BatchPrepare(mem, changes) && |changes| == |keys|
  {
    hide Le, Num, EncodeEntries, Less, Sorted;
    SortedUnique(keys, SortedKeys(changes.Keys));
    NumIs(p[32..40], mem.txn);
    NumIs(p[40..44], |keys|);
    assert p == p[..32] + p[32..40] + p[40..44] + p[44..];
  }

  lemma ManyExact(kind: nat, p: Bytes, mem: Mem, pending: set<Hash>)
    requires kind != PREPARE_ONE && DecodePrepare(kind, p, mem, pending).Some?
    ensures Says(kind, p, mem, pending, DecodePrepare(kind, p, mem, pending).value)
  {
    hide Num, ParseEntries, Parsed, BatchPrepare, Possible, Referenced;
    var changes := DecodePrepare(kind, p, mem, pending).value;
    var known := pending + if kind == PREPARE_REFERENCES then mem.objects.Keys else {};
    var keys := EntriesExact(p, 44, Num(p[40..44]), None, mem, known, map[]);
    ParsedAll(p, keys, mem, known, changes);
    BatchExact(p, mem, keys, changes);
    KnownPossible(kind, keys, mem, pending, changes);
    assert Referenced(changes, pending) <= pending by { ReferencedPending(changes, pending); }
    SameSize(Referenced(changes, pending), pending);
  }

  lemma ReferencedPending(changes: Changes, pending: set<Hash>)
    ensures Referenced(changes, pending) <= pending
  {
  }

  lemma ParsedAll(p: Bytes, keys: seq<Bytes>, mem: Mem, known: set<Hash>, changes: Changes)
    requires Parsed(p, 44, keys, None, mem, known, map[], |p|, changes)
    ensures Listable(keys, changes, None, mem, known) && Sorted(keys) && (forall k :: k in keys <==> k in changes)
    ensures p[44..] == EncodeEntries(keys, changes)
  {
    hide Less, EncodeEntries;
    assert p[44..|p|] == p[44..];
  }

  lemma KnownPossible(kind: nat, keys: seq<Bytes>, mem: Mem, pending: set<Hash>, changes: Changes)
    requires Listable(keys, changes, None, mem,
                      pending + if kind == PREPARE_REFERENCES then mem.objects.Keys else {})
    requires forall k :: k in keys <==> k in changes
    ensures Possible(mem, changes, pending, kind == PREPARE_REFERENCES)
  {
    hide Sorted;
  }

  /** A prepare record decodes only as the one payload that says its changes, each of them
      possible before it, and with no object the changes do not name. */
  lemma PrepareExact(kind: nat, p: Bytes, mem: Mem, pending: set<Hash>)
    requires DecodePrepare(kind, p, mem, pending).Some?
    ensures Says(kind, p, mem, pending, DecodePrepare(kind, p, mem, pending).value)
  {
    hide Says, DecodePrepare;
    if kind == PREPARE_ONE { OneExact(p, mem, pending); } else { ManyExact(kind, p, mem, pending); }
  }

  // ---- Records ----

  /** An accepted DATA record is the record of one new value. */
  lemma DataExact(d: Digest, c: Cursor, r: Rec, encoded: Bytes)
    requires r.kind == DATA && r.txn == c.mem.txn + 1 && AcceptData(d, c, r, encoded).Next?
    ensures |r.payload| >= 4
    ensures var value := r.payload[4..];
      r == DataRec(d, c.mem.txn + 1, value) && |value| <= MAX_PAYLOAD && |PendingOf(c)| < 64 &&
      ObjectHash(d, value) !in PendingOf(c) && |BatchOf(c) + encoded| <= MAX_BATCH &&
      AcceptData(d, c, r, encoded) ==
        Next(Data(c.at + |encoded|, c.mem, BeginOf(c), PendingOf(c)[ObjectHash(d, value) := Location(c.at, |encoded|)],
                  BatchOf(c) + encoded))
  {
    hide Le, Num, ObjectHash;
    var p := r.payload;
    NumIs(p[..2], 4);
    NumIs(p[2..4], 0);
    assert p == p[..2] + p[2..4] + p[4..];
  }

  lemma SealExact(d: Digest, mem: Mem, begin: nat, batch: Bytes, prepareAt: nat, prepare: Bytes, p: Bytes)
    requires |p| == 136 && Num(p[..8]) == mem.txn + 1 && p[8..40] == mem.chain && Num(p[40..48]) == BASE + prepareAt
    requires Num(p[48..52]) == RecordLength(|prepare|) && Num(p[52..56]) == 0 && p[56..88] == d.sha(prepare)
    requires Num(p[88..96]) == BASE + begin && Num(p[96..104]) == BASE + begin + |batch|
    requires p[104..136] == d.sha(batch)
    ensures p == CommitPayload(d, mem, begin, batch, prepareAt, prepare)
  {
    hide Le, Num, RecordLength;
    NumIs(p[..8], mem.txn + 1);
    NumIs(p[40..48], BASE + prepareAt);
    NumIs(p[48..52], RecordLength(|prepare|));
    NumIs(p[52..56], 0);
    NumIs(p[88..96], BASE + begin);
    NumIs(p[96..104], BASE + begin + |batch|);
    assert p == p[..8] + p[8..40] + p[40..48] + p[48..52] + p[52..56] + p[56..88] + p[88..96] + p[96..104] +
      p[104..136];
  }

  /** An accepted commit record is the seal of the batch before it, and of no other. */
  lemma CommitExact(d: Digest, c: Cursor, r: Rec, encoded: Bytes)
    requires r.txn == c.mem.txn + 1 && AcceptCommit(d, c, r, encoded).Next? && c.at == c.begin + |c.batch|
    ensures r == Rec(COMMIT, c.mem.txn + 1, NO_HASH, CommitPayload(d, c.mem, c.begin, c.batch, c.prepareAt, c.prepare))
  {
    hide Num, CommitPayload, RecordLength, Committed;
    SealExact(d, c.mem, c.begin, c.batch, c.prepareAt, c.prepare, r.payload);
  }
  // ---- Batches under way ----

  /** Values one transaction may store. */
  predicate Valued(d: Digest, values: seq<Bytes>) {
    |values| <= 64 && Distinct(d, values) && forall i :: 0 <= i < |values| ==> |values[i]| <= MAX_PAYLOAD
  }

  /** The bytes from the batch's start to the cursor are the DATA records of these values. */
  ghost predicate Storing(d: Digest, body: Bytes, c: Cursor, values: seq<Bytes>) {
    !c.Prepared? && BeginOf(c) <= c.at <= |body| && Loaded(d, Idle(BeginOf(c), c.mem), values, c) &&
    Valued(d, values) && c.mem.txn < U64 && body[BeginOf(c)..c.at] == EncodeAll(d, DataRecs(d, c.mem.txn + 1, values))
  }

  /** And of the prepare record after them. */
  ghost predicate Sealing(d: Digest, body: Bytes, c: Cursor, values: seq<Bytes>, kind: nat) {
    c.Prepared? && c.begin <= c.at <= |body| && Valued(d, values) && c.mem.txn + 1 < U64 &&
    kind in {PREPARE_ONE, PREPARE_VALUES, PREPARE_REFERENCES} &&
    DecodePrepare(kind, c.prepare, c.mem, Hashes(d, values)) == Some(c.changes) &&
    c.pending == Places(d, values, c.begin, map[]) &&
    c.batch == EncodeAll(d, Batch(d, c.mem, values, kind, c.prepare)) &&
    |c.batch| <= MAX_BATCH && c.at == c.begin + |c.batch| &&
    c.prepareAt == c.begin + |EncodeAll(d, DataRecs(d, c.mem.txn + 1, values))| && body[c.begin..c.at] == c.batch
  }

  lemma DataRecsSnoc(d: Digest, txn: nat, values: seq<Bytes>, v: Bytes)
    ensures DataRecs(d, txn, values + [v]) == DataRecs(d, txn, values) + [DataRec(d, txn, v)]
  {
    hide DataRec;
  }

  lemma {:induction false} PlacesSnoc(d: Digest, txn: nat, values: seq<Bytes>, v: Bytes, at: nat,
                                      acc: map<Hash, Location>)
    ensures Places(d, values + [v], at, acc) ==
      Places(d, values, at, acc)[ObjectHash(d, v) :=
        Location(at + |EncodeAll(d, DataRecs(d, txn, values))|, RecordLength(4 + |v|))]
    decreases |values|
  {
    hide ObjectHash, RecordLength, Encode;
    if values == [] {
      assert [] + [v] == [v] && [v][1..] == [];
    } else {
      var len := RecordLength(4 + |values[0]|);
      assert (values + [v])[1..] == values[1..] + [v];
      assert DataRecs(d, txn, values)[1..] == DataRecs(d, txn, values[1..]);
      PlacesSnoc(d, txn, values[1..], v, at + len, acc[ObjectHash(d, values[0]) := Location(at, len)]);
    }
  }

  lemma {:induction false} HashCount(d: Digest, values: seq<Bytes>)
    requires Distinct(d, values)
    ensures |Hashes(d, values)| == |values|
  {
    hide ObjectHash;
    if values != [] {
      var n := |values| - 1;
      HashCount(d, values[..n]);
      forall h | h in Hashes(d, values[..n]) ensures h in Hashes(d, values) && h != ObjectHash(d, values[n]) {
        var i :| 0 <= i < n && h == ObjectHash(d, values[..n][i]);
        assert values[i] == values[..n][i];
      }
      forall h | h in Hashes(d, values) ensures h in Hashes(d, values[..n]) + {ObjectHash(d, values[n])} {
        var i :| 0 <= i < |values| && h == ObjectHash(d, values[i]);
        assert i < n ==> values[..n][i] == values[i];
      }
      assert Hashes(d, values) == Hashes(d, values[..n]) + {ObjectHash(d, values[n])};
    }
  }

  lemma ValuedSnoc(d: Digest, values: seq<Bytes>, v: Bytes)
    requires Valued(d, values) && |Hashes(d, values)| < 64 && |v| <= MAX_PAYLOAD
    requires ObjectHash(d, v) !in Hashes(d, values)
    ensures Valued(d, values + [v])
  {
    hide ObjectHash;
    HashCount(d, values);
    var all := values + [v];
    forall i, j | 0 <= i < j < |all| ensures ObjectHash(d, all[i]) != ObjectHash(d, all[j]) {
      if j == |values| { assert ObjectHash(d, values[i]) in Hashes(d, values); }
    }
  }

  lemma LoadedSnoc(d: Digest, c: Cursor, c': Cursor, values: seq<Bytes>, v: Bytes, encoded: Bytes)
    requires Loaded(d, Idle(BeginOf(c), c.mem), values, c) && encoded == Encode(d, DataRec(d, c.mem.txn + 1, v))
    requires c' ==
      Data(c.at + |encoded|, c.mem, BeginOf(c), PendingOf(c)[ObjectHash(d, v) := Location(c.at, |encoded|)],
           BatchOf(c) + encoded)
    ensures Loaded(d, Idle(BeginOf(c), c.mem), values + [v], c')
    ensures EncodeAll(d, DataRecs(d, c.mem.txn + 1, values + [v])) ==
      EncodeAll(d, DataRecs(d, c.mem.txn + 1, values)) + encoded
  {
    hide Encode, ObjectHash, RecordLength, EncodeAll, DataRecs, Places, DataRec;
    var txn := c.mem.txn + 1;
    DataLength(d, txn, v);
    BytesSnoc(d, txn, values, v);
    PlacesSnoc(d, txn, values, v, BeginOf(c), map[]);
  }

  lemma DataLength(d: Digest, txn: nat, v: Bytes)
    ensures |Encode(d, DataRec(d, txn, v))| == RecordLength(4 + |v|)
  {
    hide RecordLength, Le, ObjectHash;
  }

  lemma BytesSnoc(d: Digest, txn: nat, values: seq<Bytes>, v: Bytes)
    ensures EncodeAll(d, DataRecs(d, txn, values + [v])) ==
      EncodeAll(d, DataRecs(d, txn, values)) + Encode(d, DataRec(d, txn, v))
  {
    hide Encode, EncodeAll, DataRecs, DataRec;
    DataRecsSnoc(d, txn, values, v);
    EncodeAllConcat(d, DataRecs(d, txn, values), [DataRec(d, txn, v)]);
    EncodeAllOne(d, DataRec(d, txn, v));
  }

  /** One more DATA record. */
  lemma StoringMore(d: Digest, body: Bytes, c: Cursor, values: seq<Bytes>, r: Rec, len: nat)
    requires Storing(d, body, c, values) && c.mem.txn + 1 < U64 && r.kind == DATA && r.txn == c.mem.txn + 1
    requires c.at + len <= |body| && body[c.at..c.at + len] == Encode(d, r)
    requires AcceptData(d, c, r, Encode(d, r)).Next?
    ensures Storing(d, body, AcceptData(d, c, r, Encode(d, r)).cursor, values + [r.payload[4..]])
  {
    hide Encode, ObjectHash, RecordLength, EncodeAll, DataRecs, Places, DataRec, AcceptData, Valued, Hashes, Loaded;
    DataExact(d, c, r, Encode(d, r));
    var v, encoded, c' := r.payload[4..], Encode(d, r), AcceptData(d, c, r, Encode(d, r)).cursor;
    LoadedParts(d, c, values);
    ValuedSnoc(d, values, v);
    LoadedSnoc(d, c, c', values, v, encoded);
    Together(body, BeginOf(c), c.at, c'.at, c'.at);
  }

  lemma LoadedParts(d: Digest, c: Cursor, values: seq<Bytes>)
    requires Loaded(d, Idle(BeginOf(c), c.mem), values, c)
    ensures PendingOf(c).Keys == Hashes(d, values) && |PendingOf(c)| == |Hashes(d, values)|
  {
    hide EncodeAll, DataRecs, Places, Hashes;
    PlacesKeys(d, values, BeginOf(c), map[]);
  }

  /** The prepare record. */
  lemma SealingNext(d: Digest, body: Bytes, c: Cursor, values: seq<Bytes>, r: Rec, len: nat)
    requires Storing(d, body, c, values) && c.mem.txn + 1 < U64 && r.txn == c.mem.txn + 1
    requires r.kind in {PREPARE_ONE, PREPARE_VALUES, PREPARE_REFERENCES}
    requires c.at + len <= |body| && body[c.at..c.at + len] == Encode(d, r)
    requires AcceptPrepare(c, r, Encode(d, r)).Next?
    ensures Sealing(d, body, AcceptPrepare(c, r, Encode(d, r)).cursor, values, r.kind)
  {
    hide Encode, ObjectHash, RecordLength, EncodeAll, DataRecs, Places, DataRec, Num, DecodePrepare, Valued, Hashes;
    var c' := AcceptPrepare(c, r, Encode(d, r)).cursor;
    PlacesKeys(d, values, BeginOf(c), map[]);
    assert PendingOf(c).Keys == Hashes(d, values);
    EncodeAllConcat(d, DataRecs(d, c.mem.txn + 1, values), [r]);
    EncodeAllOne(d, r);
    Together(body, BeginOf(c), c.at, c'.at, c'.at);
  }
  // ---- The story a file tells ----

  /** One stretch of a journal file: a segment header, zero fill, a checkpoint hint, or one
      committed transaction. */
  datatype Piece =
    | Header
    | Fill(length: nat)
    | Hint(payload: Bytes)
    | Transaction(values: seq<Bytes>, kind: nat, prepare: Bytes, changes: Changes)

  function SealAt(d: Digest, mem: Mem, at: nat, values: seq<Bytes>, kind: nat, prepare: Bytes): Bytes {
    CommitPayload(d, mem, at, EncodeAll(d, Batch(d, mem, values, kind, prepare)),
                  at + |EncodeAll(d, DataRecs(d, mem.txn + 1, values))|, prepare)
  }

  /** Its bytes, at this position and after this state. */
  function PieceBytes(d: Digest, repo: Bytes, at: nat, mem: Mem, p: Piece): Bytes
    requires |repo| == 16
  {
    match p
    case Header => SegmentHeader(d, repo, Segment(at))
    case Fill(n) => Zeros(n)
    case Hint(payload) => Encode(d, Rec(CHECKPOINT, mem.txn, NO_HASH, payload))
    case Transaction(values, kind, prepare, _) =>
      EncodeAll(d, Batch(d, mem, values, kind, prepare)) +
      Encode(d, Rec(COMMIT, mem.txn + 1, NO_HASH, SealAt(d, mem, at, values, kind, prepare)))
  }

  /** A header opens a segment; fill reaches to the end of one, or of the file; a hint agrees
      with the state; a transaction makes changes possible on it and stores what they need. */
  ghost predicate PieceOk(d: Digest, size: nat, at: nat, mem: Mem, p: Piece) {
    match p
    case Header => Offset(at) == 0
    case Fill(n) => Offset(at) != 0 && 0 < n <= SPAN - Offset(at) && (n == SPAN - Offset(at) || at + n == size)
    case Hint(payload) =>
      Offset(at) != 0 && |payload| >= 48 && payload[..8] == Le(mem.txn, 8) && payload[8..40] == mem.chain
    case Transaction(values, kind, prepare, changes) =>
      Offset(at) != 0 && mem.txn + 1 < U64 && Valued(d, values) &&
      kind in {PREPARE_ONE, PREPARE_VALUES, PREPARE_REFERENCES} &&
      Says(kind, prepare, mem, Hashes(d, values), changes) &&
      |EncodeAll(d, Batch(d, mem, values, kind, prepare))| <= MAX_BATCH
  }

  /** The state after it: only a transaction changes what the journal holds. */
  function PieceMem(d: Digest, at: nat, mem: Mem, p: Piece, end: nat): Mem {
    match p
    case Header => mem
    case Fill(_) => mem
    case Hint(_) => mem.(end := end)
    case Transaction(values, kind, prepare, changes) =>
      Mem(mem.txn + 1, end, CommitHash(d, SealAt(d, mem, at, values, kind, prepare)), ApplyChanges(mem.roots, changes),
          mem.objects + Places(d, values, at, map[]))
  }

  /** The bytes from `at` on are this piece, and it leads from one state to the other. */
  ghost predicate Follows(d: Digest, repo: Bytes, body: Bytes, at: nat, mem: Mem, p: Piece, at': nat, mem': Mem)
    requires |repo| == 16
  {
    PieceOk(d, |body|, at, mem, p) && at < at' <= |body| && body[at..at'] == PieceBytes(d, repo, at, mem, p) &&
    mem' == PieceMem(d, at, mem, p, at')
  }

  ghost predicate Tells(d: Digest, repo: Bytes, body: Bytes, at: nat, mem: Mem, pieces: seq<Piece>, end: nat, mem': Mem)
    requires |repo| == 16
    decreases |pieces|
  {
    if pieces == [] then end == at && mem' == mem
    else
      exists next: nat, m: Mem ::
        Follows(d, repo, body, at, mem, pieces[0], next, m) && Tells(d, repo, body, next, m, pieces[1..], end, mem')
  }

  lemma TellsCons(d: Digest, repo: Bytes, body: Bytes, at: nat, mem: Mem, p: Piece, next: nat, m: Mem,
                  pieces: seq<Piece>, end: nat, mem': Mem)
    requires |repo| == 16 && Follows(d, repo, body, at, mem, p, next, m)
    requires Tells(d, repo, body, next, m, pieces, end, mem')
    ensures Tells(d, repo, body, at, mem, [p] + pieces, end, mem')
  {
    hide Follows;
    assert ([p] + pieces)[1..] == pieces;
  }

  /** What a cursor stands for. */
  ghost predicate Explained(d: Digest, body: Bytes, c: Cursor, values: seq<Bytes>, kind: nat) {
    if c.Prepared? then Sealing(d, body, c, values, kind) else Storing(d, body, c, values)
  }

  lemma IdleExplained(d: Digest, body: Bytes, at: nat, mem: Mem)
    requires at <= |body| && mem.txn < U64
    ensures Explained(d, body, Idle(at, mem), [], 0)
  {
    LoadedNone(d, Idle(at, mem));
    assert DataRecs(d, mem.txn + 1, []) == [];
  }

  lemma HeaderStep(d: Digest, repo: Bytes, body: Bytes, c: Cursor)
    requires |repo| == 16 && c.at < |body| && Offset(c.at) == 0 && StepAt(d, repo, body, c).Next?
    ensures var c' := StepAt(d, repo, body, c).cursor;
      c.Idle? && c'.Idle? && c'.mem == c.mem && Follows(d, repo, body, c.at, c.mem, Header, c'.at, c'.mem)
  {
    hide SegmentHeader, Offset, ReadRecord, Accept;
  }

  lemma FillStep(d: Digest, repo: Bytes, body: Bytes, c: Cursor)
    requires |repo| == 16 && c.at < |body| && Offset(c.at) != 0 && StepAt(d, repo, body, c).Next?
    requires AllZero(body[c.at..c.at + Min(4, |body| - c.at)])
    ensures var c' := StepAt(d, repo, body, c).cursor;
      c.Idle? && c'.Idle? && c'.mem == c.mem &&
      Follows(d, repo, body, c.at, c.mem, Fill(c'.at - c.at), c'.at, c'.mem)
  {
    hide SegmentHeader, Offset, ReadRecord, Accept;
    var c' := StepAt(d, repo, body, c).cursor;
    assert body[c.at..c'.at] == Zeros(c'.at - c.at);
  }

  lemma HintStep(d: Digest, repo: Bytes, body: Bytes, c: Cursor, r: Rec, len: nat)
    requires |repo| == 16 && c.Idle? && r.kind == CHECKPOINT && len > 0 && c.at + len <= |body| && Offset(c.at) != 0
    requires body[c.at..c.at + len] == Encode(d, r) && Accept(d, c, r, Encode(d, r)).Next? && |Encode(d, r)| == len
    ensures var c' := Accept(d, c, r, Encode(d, r)).cursor;
      c'.Idle? && c'.mem.txn == c.mem.txn && Follows(d, repo, body, c.at, c.mem, Hint(r.payload), c'.at, c'.mem)
  {
    hide Encode, Offset, Num, Le, AcceptData, AcceptPrepare, AcceptCommit;
    NumIs(r.payload[..8], c.mem.txn);
  }

  /** The bytes of a sealed batch and of its commit record are the transaction's. */
  lemma SealedBytes(d: Digest, repo: Bytes, body: Bytes, c: Cursor, values: seq<Bytes>, kind: nat, r: Rec, len: nat)
    requires |repo| == 16 && Sealing(d, body, c, values, kind) && c.at + len <= |body|
    requires r == Rec(COMMIT, c.mem.txn + 1, NO_HASH, CommitPayload(d, c.mem, c.begin, c.batch, c.prepareAt, c.prepare))
    requires body[c.at..c.at + len] == Encode(d, r)
    ensures r.payload == SealAt(d, c.mem, c.begin, values, kind, c.prepare)
    ensures body[c.begin..c.at + len] ==
      PieceBytes(d, repo, c.begin, c.mem, Transaction(values, kind, c.prepare, c.changes))
  {
    hide Encode, EncodeAll, DataRecs, Places, Valued, CommitPayload, Batch, Hashes, DecodePrepare;
    Together(body, c.begin, c.at, c.at + len, c.at + len);
  }

  lemma SealedOk(d: Digest, body: Bytes, c: Cursor, values: seq<Bytes>, kind: nat)
    requires Sealing(d, body, c, values, kind) && Offset(c.begin) != 0
    ensures PieceOk(d, |body|, c.begin, c.mem, Transaction(values, kind, c.prepare, c.changes))
  {
    hide Offset, EncodeAll, DataRecs, Places, Says, Valued, Batch, Hashes, DecodePrepare;
    PrepareExact(kind, c.prepare, c.mem, Hashes(d, values));
  }

  lemma SealedParts(d: Digest, body: Bytes, c: Cursor, values: seq<Bytes>, kind: nat)
    requires Sealing(d, body, c, values, kind)
    ensures c.begin <= c.at == c.begin + |c.batch| && c.mem.txn + 1 < U64
    ensures c.pending == Places(d, values, c.begin, map[])
  {
  }

  lemma CommitStep(d: Digest, repo: Bytes, body: Bytes, c: Cursor, values: seq<Bytes>, kind: nat, r: Rec, len: nat)
    requires |repo| == 16 && Sealing(d, body, c, values, kind) && r.txn == c.mem.txn + 1 && Offset(c.begin) != 0
    requires len > 0 && c.at + len <= |body| && body[c.at..c.at + len] == Encode(d, r) && |Encode(d, r)| == len
    requires AcceptCommit(d, c, r, Encode(d, r)).Next?
    ensures var c' := AcceptCommit(d, c, r, Encode(d, r)).cursor;
      c'.Idle? && c'.mem.txn < U64 &&
      Follows(d, repo, body, c.begin, c.mem, Transaction(values, kind, c.prepare, c.changes), c'.at, c'.mem)
  {
    hide Sealing, PieceOk, PieceBytes, SealAt, Encode, Offset, Num, Places, CommitPayload, RecordLength;
    SealedParts(d, body, c, values, kind);
    CommitExact(d, c, r, Encode(d, r));
    SealedBytes(d, repo, body, c, values, kind, r, len);
    SealedOk(d, body, c, values, kind);
  }

  /** A cursor inside a batch that began after its segment's header. */
  ghost predicate Standing(d: Digest, body: Bytes, c: Cursor, values: seq<Bytes>, kind: nat) {
    c.at <= |body| && c.mem.txn < U64 && Explained(d, body, c, values, kind) && (!c.Idle? ==> Offset(BeginOf(c)) != 0)
  }

  lemma IdleStands(d: Digest, body: Bytes, at: nat, mem: Mem)
    requires at <= |body| && mem.txn < U64
    ensures Standing(d, body, Idle(at, mem), [], 0)
  {
    IdleExplained(d, body, at, mem);
  }

  /** One accepted record: the batch goes on, or a hint or a whole transaction is behind. */
  lemma RecordTold(d: Digest, repo: Bytes, body: Bytes, c: Cursor, values: seq<Bytes>, kind: nat, r: Rec, len: nat)
    returns (values': seq<Bytes>, kind': nat, piece: Option<Piece>)
    requires |repo| == 16 && Standing(d, body, c, values, kind) && Offset(c.at) != 0 && Encodable(r)
    requires len > 0 && c.at + len <= |body| && body[c.at..c.at + len] == Encode(d, r) && |Encode(d, r)| == len
    requires Accept(d, c, r, Encode(d, r)).Next?
    ensures var c' := Accept(d, c, r, Encode(d, r)).cursor;
      Standing(d, body, c', values', kind') &&
      if piece.None? then BeginOf(c') == BeginOf(c) && c'.mem == c.mem
      else Follows(d, repo, body, BeginOf(c), c.mem, piece.value, BeginOf(c'), c'.mem)
  {
    hide Encode, Offset, Num, Storing, Sealing, AcceptData, AcceptPrepare, AcceptCommit, Follows, Valued;
    var c' := Accept(d, c, r, Encode(d, r)).cursor;
    if c.Idle? && r.kind == CHECKPOINT {
      HintStep(d, repo, body, c, r, len);
      IdleStands(d, body, c'.at, c'.mem);
      return [], 0, Some(Hint(r.payload));
    } else if !c.Prepared? && r.kind == DATA {
      StoringMore(d, body, c, values, r, len);
      DataGoesOn(d, c, r, Encode(d, r));
      StoringBounds(d, body, c', values + [r.payload[4..]]);
      return values + [r.payload[4..]], 0, None;
    } else if !c.Prepared? && r.kind in {PREPARE_ONE, PREPARE_VALUES, PREPARE_REFERENCES} {
      SealingNext(d, body, c, values, r, len);
      PrepareGoesOn(c, r, Encode(d, r));
      SealingBounds(d, body, c', values, r.kind);
      return values, r.kind, None;
    } else {
      OnlyPrepared(d, c, r, Encode(d, r));
      CommitStep(d, repo, body, c, values, kind, r, len);
      IdleStands(d, body, c'.at, c'.mem);
      return [], 0, Some(Transaction(values, kind, c.prepare, c.changes));
    }
  }

  lemma DataGoesOn(d: Digest, c: Cursor, r: Rec, encoded: Bytes)
    requires AcceptData(d, c, r, encoded).Next?
    ensures var c' := AcceptData(d, c, r, encoded).cursor;
      c'.Data? && c'.mem == c.mem && BeginOf(c') == BeginOf(c) && |r.payload| >= 4
  {
    hide Num, ObjectHash;
  }

  lemma PrepareGoesOn(c: Cursor, r: Rec, encoded: Bytes)
    requires AcceptPrepare(c, r, encoded).Next?
    ensures var c' := AcceptPrepare(c, r, encoded).cursor; c'.Prepared? && c'.mem == c.mem && BeginOf(c') == BeginOf(c)
  {
    hide DecodePrepare;
  }

  lemma OnlyPrepared(d: Digest, c: Cursor, r: Rec, encoded: Bytes)
    requires AcceptCommit(d, c, r, encoded).Next?
    ensures c.Prepared? && AcceptCommit(d, c, r, encoded).cursor.Idle?
    ensures AcceptCommit(d, c, r, encoded).cursor.at == c.at + |encoded|
  {
    hide Num, Committed;
  }

  lemma StoringBounds(d: Digest, body: Bytes, c: Cursor, values: seq<Bytes>)
    requires Storing(d, body, c, values)
    ensures c.at <= |body| && c.mem.txn < U64
  {
  }

  lemma SealingBounds(d: Digest, body: Bytes, c: Cursor, values: seq<Bytes>, kind: nat)
    requires Sealing(d, body, c, values, kind)
    ensures c.at <= |body| && c.mem.txn < U64
  {
  }

  lemma StepTold(d: Digest, repo: Bytes, body: Bytes, c: Cursor, values: seq<Bytes>, kind: nat)
    returns (values': seq<Bytes>, kind': nat, piece: Option<Piece>)
    requires |repo| == 16 && c.at < |body| && Standing(d, body, c, values, kind) && StepAt(d, repo, body, c).Next?
    ensures var c' := StepAt(d, repo, body, c).cursor;
      Standing(d, body, c', values', kind') &&
      if piece.None? then BeginOf(c') == BeginOf(c) && c'.mem == c.mem
      else Follows(d, repo, body, BeginOf(c), c.mem, piece.value, BeginOf(c'), c'.mem)
  {
    hide Offset, Explained, Accept, ReadRecord, SegmentHeader, Encode, Follows, RecordLength;
    var c' := StepAt(d, repo, body, c).cursor;
    if Offset(c.at) == 0 {
      HeaderStep(d, repo, body, c);
      IdleStands(d, body, c'.at, c'.mem);
      return [], 0, Some(Header);
    } else if AllZero(body[c.at..c.at + Min(4, |body| - c.at)]) {
      FillStep(d, repo, body, c);
      IdleStands(d, body, c'.at, c'.mem);
      return [], 0, Some(Fill(c'.at - c.at));
    } else {
      OnlyRecords(d, body, c.at, |body|);
      var got := ReadRecord(d, body, c.at, |body|);
      values', kind', piece := RecordTold(d, repo, body, c, values, kind, got.rec, got.length);
    }
  }

  /** From any cursor, what replay goes over is a list of such pieces. */
  lemma {:induction false} RunTold(d: Digest, repo: Bytes, body: Bytes, c: Cursor, values: seq<Bytes>, kind: nat)
    returns (pieces: seq<Piece>)
    requires |repo| == 16 && Standing(d, body, c, values, kind) && Run(d, repo, body, c).Some?
    ensures var f := Run(d, repo, body, c).value; Tells(d, repo, body, BeginOf(c), c.mem, pieces, BeginOf(f), f.mem)
    decreases |body| - c.at
  {
    hide StepAt, Explained, Follows;
    if c.at == |body| || StepAt(d, repo, body, c).Stop? { return []; }
    var c' := StepAt(d, repo, body, c).cursor;
    var values', kind', piece := StepTold(d, repo, body, c, values, kind);
    var f := Run(d, repo, body, c).value;
    pieces := RunTold(d, repo, body, c', values', kind');
    if piece.Some? {
      TellsCons(d, repo, body, BeginOf(c), c.mem, piece.value, BeginOf(c'), c'.mem, pieces, BeginOf(f), f.mem);
      pieces := [piece.value] + pieces;
    }
  }

  /** Recovery of any file reports exactly what the whole transactions in it say: the file up
      to the unfinished tail is headers, fill, agreeing hints and sealed transactions, and the
      state is the empty one with those transactions applied in turn. */
  lemma OnlyTransactions(d: Digest, repo: Bytes, body: Bytes) returns (pieces: seq<Piece>)
    requires |repo| == 16 && Run(d, repo, body, Idle(0, EMPTY)).Some?
    ensures var f := Run(d, repo, body, Idle(0, EMPTY)).value;
      Tells(d, repo, body, 0, EMPTY, pieces, BeginOf(f), f.mem)
  {
    hide Run, Tells;
    IdleStands(d, body, 0, EMPTY);
    pieces := RunTold(d, repo, body, Idle(0, EMPTY), [], 0);
  }
}
