/** Transactions: the records one commit appends, and what recovery makes of them. */
module JournalTx {
  import opened Bytes
  import opened JournalCodec
  import opened JournalReplay
  import opened JournalLog

  function DataRec(d: Digest, txn: nat, value: Bytes): Rec {
    Rec(DATA, txn, ObjectHash(d, value), Le(4, 2) + Le(0, 2) + value)
  }

  function DataRecs(d: Digest, txn: nat, values: seq<Bytes>): (recs: seq<Rec>)
    ensures |recs| == |values|
    ensures forall i :: 0 <= i < |values| ==> recs[i] == DataRec(d, txn, values[i])
  {
    seq(|values|, i requires 0 <= i < |values| => DataRec(d, txn, values[i]))
  }

  function Batch(d: Digest, mem: Mem, values: seq<Bytes>, kind: nat, prepare: Bytes): seq<Rec> {
    DataRecs(d, mem.txn + 1, values) + [Rec(kind, mem.txn + 1, NO_HASH, prepare)]
  }

  const COMMIT_LENGTH: nat := 216

  /** Where the batch starts and where its prepare record starts. */
  function BatchBegin(d: Digest, mem: Mem, values: seq<Bytes>, kind: nat, prepare: Bytes): nat {
    Begin(mem.end, |EncodeAll(d, Batch(d, mem, values, kind, prepare))| + COMMIT_LENGTH)
  }

  function PrepareAt(d: Digest, mem: Mem, values: seq<Bytes>, kind: nat, prepare: Bytes): nat {
    BatchBegin(d, mem, values, kind, prepare) + |EncodeAll(d, DataRecs(d, mem.txn + 1, values))|
  }

  function Seal(d: Digest, mem: Mem, values: seq<Bytes>, kind: nat, prepare: Bytes): Bytes {
    CommitPayload(d, mem, BatchBegin(d, mem, values, kind, prepare),
                  EncodeAll(d, Batch(d, mem, values, kind, prepare)),
                  PrepareAt(d, mem, values, kind, prepare), prepare)
  }

  function TxRecs(d: Digest, mem: Mem, values: seq<Bytes>, kind: nat, prepare: Bytes): (recs: seq<Rec>)
    ensures recs != []
  {
    Batch(d, mem, values, kind, prepare) +
    [Rec(COMMIT, mem.txn + 1, NO_HASH, Seal(d, mem, values, kind, prepare))]
  }

  /** The index entries a run of DATA records starting at `at` adds. */
  function Places(d: Digest, values: seq<Bytes>, at: nat, acc: map<Hash, Location>): map<Hash, Location>
    decreases |values|
  {
    if values == [] then acc
    else
      var len := RecordLength(4 + |values[0]|);
      Places(d, values[1..], at + len, acc[ObjectHash(d, values[0]) := Location(at, len)])
  }

  function Hashes(d: Digest, values: seq<Bytes>): set<Hash> {
    set i | 0 <= i < |values| :: ObjectHash(d, values[i])
  }

  predicate Distinct(d: Digest, values: seq<Bytes>) {
    forall i, j :: 0 <= i < j < |values| ==> ObjectHash(d, values[i]) != ObjectHash(d, values[j])
  }

  /** What the writer guarantees about a batch before it touches the disk. */
  predicate TxOk(d: Digest, mem: Mem, values: seq<Bytes>, kind: nat, prepare: Bytes, changes: Changes) {
    mem.txn + 1 < U64 && HasRoom(mem.end, |EncodeAll(d, Batch(d, mem, values, kind, prepare))| + COMMIT_LENGTH) &&
    |values| <= 64 && Distinct(d, values) &&
    (forall i :: 0 <= i < |values| ==> |values[i]| <= MAX_PAYLOAD) &&
    kind in {PREPARE_ONE, PREPARE_VALUES, PREPARE_REFERENCES} &&
    RecordLength(|prepare|) <= MAX_RECORD &&
    DecodePrepare(kind, prepare, mem, Hashes(d, values)) == Some(changes) &&
    |EncodeAll(d, Batch(d, mem, values, kind, prepare))| <= MAX_BATCH
  }

  function TxMem(d: Digest, mem: Mem, values: seq<Bytes>, kind: nat, prepare: Bytes, changes: Changes): Mem {
    var begin := BatchBegin(d, mem, values, kind, prepare);
    Committed(d, mem, Places(d, values, begin, map[]), changes, Seal(d, mem, values, kind, prepare),
              begin + |EncodeAll(d, Batch(d, mem, values, kind, prepare))| + COMMIT_LENGTH)
  }

  // ---- Folding lists of records ----

  predicate Steady(d: Digest, c: Cursor, recs: seq<Rec>)
    decreases |recs|
  {
    recs == [] ||
    (Encodable(recs[0]) &&
     var s := Accept(d, c, recs[0], Encode(d, recs[0]));
     s.Next? && s.cursor.mem == c.mem && Steady(d, s.cursor, recs[1..]))
  }

  lemma {:induction false} EncodeAllConcat(d: Digest, a: seq<Rec>, b: seq<Rec>)
    ensures EncodeAll(d, a + b) == EncodeAll(d, a) + EncodeAll(d, b)
  {
    hide Encode;
    if a == [] {
      assert a + b == b;
    } else {
      assert (a + b)[1..] == a[1..] + b;
      EncodeAllConcat(d, a[1..], b);
    }
  }

  lemma EncodeAllOne(d: Digest, r: Rec)
    ensures EncodeAll(d, [r]) == Encode(d, r)
  {
    assert [r][1..] == [];
  }

  lemma {:induction false} FoldConcat(d: Digest, c: Cursor, a: seq<Rec>, b: seq<Rec>)
    requires Steady(d, c, a) && b != []
    ensures Fold(d, c, a).Next? && Fold(d, c, a).cursor.mem == c.mem
    ensures Fold(d, c, a + b) == Fold(d, Fold(d, c, a).cursor, b)
    ensures Quiet(d, Fold(d, c, a).cursor, b) ==> Quiet(d, c, a + b)
    ensures Steady(d, Fold(d, c, a).cursor, b) ==> Steady(d, c, a + b)
    decreases |a|
  {
    hide Accept, Encode;
    if a == [] {
      assert a + b == b;
    } else {
      assert (a + b)[1..] == a[1..] + b;
      FoldConcat(d, Accept(d, c, a[0], Encode(d, a[0])).cursor, a[1..], b);
    }
  }

  lemma FoldOne(d: Digest, c: Cursor, r: Rec)
    requires Encodable(r) && Accept(d, c, r, Encode(d, r)).Next?
    ensures Fold(d, c, [r]) == Accept(d, c, r, Encode(d, r)) && Quiet(d, c, [r])
    ensures Accept(d, c, r, Encode(d, r)).cursor.mem == c.mem ==> Steady(d, c, [r])
  {
    hide Accept, Encode;
    assert [r][1..] == [];
  }

  // ---- The DATA records ----

  lemma DataPayload(d: Digest, txn: nat, value: Bytes)
    requires txn < U64 && |value| <= MAX_PAYLOAD
    ensures var r := DataRec(d, txn, value);
            Encodable(r) && |r.payload| == 4 + |value| && r.payload[4..] == value &&
            Num(r.payload[..2]) == 4 && Num(r.payload[2..4]) == 0
  {
    var p := DataRec(d, txn, value).payload;
    assert p[..2] == Le(4, 2) && p[2..4] == Le(0, 2) && p[4..] == value;
    FitsU16(4);
    FitsU16(0);
  }

  lemma DataAccepted(d: Digest, c: Cursor, value: Bytes)
    requires !c.Prepared? && c.mem.txn + 1 < U64 && |value| <= MAX_PAYLOAD
    requires |PendingOf(c)| < 64 && ObjectHash(d, value) !in PendingOf(c)
    requires |BatchOf(c)| + RecordLength(4 + |value|) <= MAX_BATCH
    ensures var r := DataRec(d, c.mem.txn + 1, value);
            var len := RecordLength(4 + |value|);
            Encodable(r) && |Encode(d, r)| == len &&
            Accept(d, c, r, Encode(d, r)) ==
              Next(Data(c.at + len, c.mem, BeginOf(c), PendingOf(c)[ObjectHash(d, value) := Location(c.at, len)],
                        BatchOf(c) + Encode(d, r)))
  {
    hide Encode, ObjectHash;
    DataPayload(d, c.mem.txn + 1, value);
  }

  /** `f` is `c` after the DATA records of `values`. */
  predicate Loaded(d: Digest, c: Cursor, values: seq<Bytes>, f: Cursor) {
    var bytes := EncodeAll(d, DataRecs(d, c.mem.txn + 1, values));
    !f.Prepared? && f.at == c.at + |bytes| && f.mem == c.mem && BatchOf(f) == BatchOf(c) + bytes &&
    PendingOf(f) == Places(d, values, c.at, PendingOf(c)) && BeginOf(f) == BeginOf(c)
  }

  lemma LoadedNone(d: Digest, c: Cursor)
    requires !c.Prepared?
    ensures Loaded(d, c, [], c)
  {
  }

  lemma LoadedStep(d: Digest, c: Cursor, values: seq<Bytes>, c': Cursor, f: Cursor)
    requires values != [] && !c.Prepared?
    requires var r := DataRec(d, c.mem.txn + 1, values[0]);
             var len := RecordLength(4 + |values[0]|);
             |Encode(d, r)| == len &&
             c' == Data(c.at + len, c.mem, BeginOf(c), PendingOf(c)[ObjectHash(d, values[0]) := Location(c.at, len)],
                        BatchOf(c) + Encode(d, r))
    requires Loaded(d, c', values[1..], f)
    ensures Loaded(d, c, values, f)
  {
    hide Encode, ObjectHash, RecordLength;
    var recs, rest := DataRecs(d, c.mem.txn + 1, values), DataRecs(d, c.mem.txn + 1, values[1..]);
    assert recs[1..] == rest;
    assert EncodeAll(d, recs) == Encode(d, recs[0]) + EncodeAll(d, rest);
  }

  /** The DATA records of `values` may follow `c`. */
  predicate Loadable(d: Digest, c: Cursor, values: seq<Bytes>) {
    !c.Prepared? && c.mem.txn + 1 < U64 && Distinct(d, values) && |PendingOf(c)| + |values| <= 64 &&
    (forall i :: 0 <= i < |values| ==> |values[i]| <= MAX_PAYLOAD && ObjectHash(d, values[i]) !in PendingOf(c)) &&
    |BatchOf(c)| + |EncodeAll(d, DataRecs(d, c.mem.txn + 1, values))| <= MAX_BATCH
  }

  lemma LoadableStep(d: Digest, c: Cursor, values: seq<Bytes>)
    requires values != [] && Loadable(d, c, values)
    ensures var r := DataRec(d, c.mem.txn + 1, values[0]);
            var len := RecordLength(4 + |values[0]|);
            Encodable(r) && |Encode(d, r)| == len &&
            Accept(d, c, r, Encode(d, r)).Next? &&
            var c' := Accept(d, c, r, Encode(d, r)).cursor;
            c' == Data(c.at + len, c.mem, BeginOf(c), PendingOf(c)[ObjectHash(d, values[0]) := Location(c.at, len)],
                       BatchOf(c) + Encode(d, r)) &&
            Loadable(d, c', values[1..])
  {
    hide Accept, Encode, ObjectHash, RecordLength;
    var recs, rest := DataRecs(d, c.mem.txn + 1, values), DataRecs(d, c.mem.txn + 1, values[1..]);
    assert recs[1..] == rest;
    assert EncodeAll(d, recs) == Encode(d, recs[0]) + EncodeAll(d, rest);
    DataAccepted(d, c, values[0]);
  }

  lemma {:induction false} ValuesFold(d: Digest, c: Cursor, values: seq<Bytes>)
    requires !c.Prepared? && Loadable(d, c, values)
    ensures var recs := DataRecs(d, c.mem.txn + 1, values);
            Steady(d, c, recs) && Fold(d, c, recs).Next? && Loaded(d, c, values, Fold(d, c, recs).cursor)
    decreases |values|
  {
    hide Accept, Encode, ObjectHash, RecordLength, Places, EncodeAll, Loaded, Loadable;
    var recs := DataRecs(d, c.mem.txn + 1, values);
    if values == [] {
      LoadedNone(d, c);
    } else {
      var rest := DataRecs(d, c.mem.txn + 1, values[1..]);
      assert recs[1..] == rest;
      LoadableStep(d, c, values);
      var c' := Accept(d, c, recs[0], Encode(d, recs[0])).cursor;
      ValuesFold(d, c', values[1..]);
      LoadedStep(d, c, values, c', Fold(d, c', rest).cursor);
    }
  }

  lemma {:induction false} PlacesKeys(d: Digest, values: seq<Bytes>, at: nat, acc: map<Hash, Location>)
    ensures Places(d, values, at, acc).Keys == acc.Keys + Hashes(d, values)
    decreases |values|
  {
    hide ObjectHash;
    if values != [] {
      var len := RecordLength(4 + |values[0]|);
      PlacesKeys(d, values[1..], at + len, acc[ObjectHash(d, values[0]) := Location(at, len)]);
      forall h | h in Hashes(d, values) ensures h == ObjectHash(d, values[0]) || h in Hashes(d, values[1..]) {
        var i :| 0 <= i < |values| && h == ObjectHash(d, values[i]);
        assert i > 0 ==> values[i] == values[1..][i - 1];
      }
      forall h | h in Hashes(d, values[1..]) ensures h in Hashes(d, values) {
        var i :| 0 <= i < |values[1..]| && h == ObjectHash(d, values[1..][i]);
        assert values[1..][i] == values[i + 1];
      }
    }
  }

  // ---- Prepare and commit ----

  lemma PrepareAccepted(d: Digest, c: Cursor, kind: nat, prepare: Bytes, changes: Changes)
    requires !c.Prepared? && c.mem.txn + 1 < U64 && RecordLength(|prepare|) <= MAX_RECORD
    requires kind in {PREPARE_ONE, PREPARE_VALUES, PREPARE_REFERENCES}
    requires DecodePrepare(kind, prepare, c.mem, PendingOf(c).Keys) == Some(changes)
    requires |BatchOf(c)| + RecordLength(|prepare|) <= MAX_BATCH
    ensures var r := Rec(kind, c.mem.txn + 1, NO_HASH, prepare);
            Encodable(r) &&
            Accept(d, c, r, Encode(d, r)) ==
              Next(Prepared(c.at + RecordLength(|prepare|), c.mem, BeginOf(c), PendingOf(c),
                            BatchOf(c) + Encode(d, r), changes, c.at, prepare))
  {
    hide Encode, DecodePrepare, RecordLength;
  }

  lemma SealParts(d: Digest, mem: Mem, begin: nat, batch: Bytes, prepareAt: nat, prepare: Bytes)
    ensures var p := CommitPayload(d, mem, begin, batch, prepareAt, prepare);
            p[..8] == Le(mem.txn + 1, 8) && p[8..40] == mem.chain && p[40..48] == Le(BASE + prepareAt, 8) &&
            p[48..52] == Le(RecordLength(|prepare|), 4) && p[52..56] == Le(0, 4) && p[56..88] == d.sha(prepare) &&
            p[88..96] == Le(BASE + begin, 8) && p[96..104] == Le(BASE + begin + |batch|, 8) &&
            p[104..136] == d.sha(batch)
  {
    hide RecordLength, Le;
  }

  lemma SealNumbers(d: Digest, mem: Mem, begin: nat, batch: Bytes, prepareAt: nat, prepare: Bytes)
    requires mem.txn + 1 < U64 && BASE + prepareAt < U64 && BASE + begin + |batch| < U64
    requires RecordLength(|prepare|) < U32
    ensures var p := CommitPayload(d, mem, begin, batch, prepareAt, prepare);
            Num(p[..8]) == mem.txn + 1 && p[8..40] == mem.chain && Num(p[40..48]) == BASE + prepareAt &&
            Num(p[48..52]) == RecordLength(|prepare|) && Num(p[52..56]) == 0 && p[56..88] == d.sha(prepare) &&
            Num(p[88..96]) == BASE + begin && Num(p[96..104]) == BASE + begin + |batch| && p[104..136] == d.sha(batch)
  {
    hide RecordLength, Le, Num, Fits, CommitPayload;
    SealParts(d, mem, begin, batch, prepareAt, prepare);
    FitsU64(mem.txn + 1);
    FitsU64(BASE + prepareAt);
    FitsU64(BASE + begin);
    FitsU64(BASE + begin + |batch|);
    FitsU32(RecordLength(|prepare|));
    FitsU32(0);
  }

  lemma CommitAccepted(d: Digest, c: Cursor)
    requires c.Prepared? && c.mem.txn + 1 < U64 && c.at == c.begin + |c.batch| && c.prepareAt <= c.at
    requires BASE + c.at < U64 && RecordLength(|c.prepare|) < U32 && |c.batch| <= MAX_BATCH
    ensures var p := CommitPayload(d, c.mem, c.begin, c.batch, c.prepareAt, c.prepare);
            var r := Rec(COMMIT, c.mem.txn + 1, NO_HASH, p);
            Encodable(r) && |Encode(d, r)| == COMMIT_LENGTH &&
            Accept(d, c, r, Encode(d, r)) ==
              Next(Idle(c.at + COMMIT_LENGTH, Committed(d, c.mem, c.pending, c.changes, p, c.at + COMMIT_LENGTH)))
  {
    assert RecordLength(136) == COMMIT_LENGTH;
    hide Encode, CommitPayload, Committed, Num, Le, RecordLength;
    SealNumbers(d, c.mem, c.begin, c.batch, c.prepareAt, c.prepare);
  }

  lemma PrepareAfterValues(d: Digest, mem: Mem, begin: nat, values: seq<Bytes>, f: Cursor, kind: nat, prepare: Bytes,
                           changes: Changes)
    requires Loaded(d, Idle(begin, mem), values, f) && mem.txn + 1 < U64 && RecordLength(|prepare|) <= MAX_RECORD
    requires kind in {PREPARE_ONE, PREPARE_VALUES, PREPARE_REFERENCES}
    requires DecodePrepare(kind, prepare, mem, Hashes(d, values)) == Some(changes)
    requires |EncodeAll(d, DataRecs(d, mem.txn + 1, values))| + RecordLength(|prepare|) <= MAX_BATCH
    ensures var data := EncodeAll(d, DataRecs(d, mem.txn + 1, values));
            var r := Rec(kind, mem.txn + 1, NO_HASH, prepare);
            Encodable(r) &&
            Accept(d, f, r, Encode(d, r)) ==
              Next(Prepared(begin + |data| + RecordLength(|prepare|), mem, begin, Places(d, values, begin, map[]),
                            data + Encode(d, r), changes, begin + |data|, prepare))
  {
    hide Accept, Encode, ObjectHash, RecordLength, DecodePrepare, EncodeAll, Places, Hashes;
    PlacesKeys(d, values, begin, map[]);
    assert PendingOf(f).Keys == Hashes(d, values);
    PrepareAccepted(d, f, kind, prepare, changes);
  }

  lemma BatchFold(d: Digest, mem: Mem, values: seq<Bytes>, kind: nat, prepare: Bytes, changes: Changes, begin: nat)
    requires TxOk(d, mem, values, kind, prepare, changes)
    ensures var recs := Batch(d, mem, values, kind, prepare);
            Steady(d, Idle(begin, mem), recs) &&
            Fold(d, Idle(begin, mem), recs) ==
              Next(Prepared(begin + |EncodeAll(d, recs)|, mem, begin, Places(d, values, begin, map[]),
                            EncodeAll(d, recs),
                            changes, begin + |EncodeAll(d, DataRecs(d, mem.txn + 1, values))|, prepare))
  {
    hide Accept, Encode, ObjectHash, RecordLength, DecodePrepare, Fold, Steady, EncodeAll, Places, Hashes, Loaded,
         DataRecs;
    var c := Idle(begin, mem);
    var data := DataRecs(d, mem.txn + 1, values);
    var r := Rec(kind, mem.txn + 1, NO_HASH, prepare);
    EncodeAllConcat(d, data, [r]);
    EncodeAllOne(d, r);
    ValuesFold(d, c, values);
    var f := Fold(d, c, data).cursor;
    PrepareAfterValues(d, mem, begin, values, f, kind, prepare, changes);
    FoldOne(d, f, r);
    FoldConcat(d, c, data, [r]);
  }

  lemma RoomBelow(end: nat, required: nat)
    requires HasRoom(end, required) && required <= MAX_BATCH + COMMIT_LENGTH
    ensures BASE + Begin(end, required) + required < U64
  {
  }

  /** Every record of an acceptable batch is accepted in turn, only the commit
      record publishes, and it publishes exactly the batch. */
  lemma TxFold(d: Digest, mem: Mem, values: seq<Bytes>, kind: nat, prepare: Bytes, changes: Changes)
    requires TxOk(d, mem, values, kind, prepare, changes)
    ensures var recs := TxRecs(d, mem, values, kind, prepare);
            var required := |EncodeAll(d, recs)|;
            required == |EncodeAll(d, Batch(d, mem, values, kind, prepare))| + COMMIT_LENGTH &&
            Quiet(d, Idle(Begin(mem.end, required), mem), recs) &&
            Fold(d, Idle(Begin(mem.end, required), mem), recs) ==
              Next(Idle(Begin(mem.end, required) + required, TxMem(d, mem, values, kind, prepare, changes)))
  {
    hide Accept, Encode, ObjectHash, RecordLength, DecodePrepare, CommitPayload, Committed, Fold, Steady, Quiet,
         EncodeAll, Places, HasRoom, Begin;
    var recs := Batch(d, mem, values, kind, prepare);
    var r := Rec(COMMIT, mem.txn + 1, NO_HASH, Seal(d, mem, values, kind, prepare));
    var begin := BatchBegin(d, mem, values, kind, prepare);
    var c := Idle(begin, mem);
    EncodeAllConcat(d, recs, [r]);
    EncodeAllOne(d, r);
    BatchFold(d, mem, values, kind, prepare, changes, begin);
    var f := Fold(d, c, recs).cursor;
    RoomBelow(mem.end, |EncodeAll(d, recs)| + COMMIT_LENGTH);
    EncodeAllConcat(d, DataRecs(d, mem.txn + 1, values), [Rec(kind, mem.txn + 1, NO_HASH, prepare)]);
    CommitAccepted(d, f);
    FoldOne(d, f, r);
    FoldConcat(d, c, recs, [r]);
  }
}
