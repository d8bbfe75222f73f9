/** The invariant of a journal file: its committed prefix always replays to the
    state in memory, and everything that state points at can be read back. */
module JournalStore {
  import opened Bytes
  import opened JournalCodec
  import opened JournalReplay
  import opened JournalLog
  import opened JournalTx
  import opened JournalWriter

  /** No digest is all zero; the format reserves zero for "none". */
  ghost predicate Sound(d: Digest) {
    forall b :: d.sha(b) != NO_HASH
  }

  /** Whatever is appended after `prefix`, a full replay passes through `mem` at its end. */
  ghost predicate Resumes(d: Digest, repo: Bytes, prefix: Bytes, mem: Mem) {
    |repo| == 16 && |prefix| == mem.end &&
    forall rest :: Run(d, repo, prefix + rest, Idle(0, EMPTY)) == Run(d, repo, prefix + rest, Idle(|prefix|, mem))
  }

  /** Every segment begun before `end` carries its own header. */
  ghost predicate Headers(d: Digest, repo: Bytes, body: Bytes, end: nat) {
    |repo| == 16 && end <= |body| &&
    forall s: nat :: s * SPAN < end ==>
      s * SPAN + HEADER <= end && body[s * SPAN..s * SPAN + HEADER] == SegmentHeader(d, repo, s)
  }

  predicate Placed(loc: Location, end: nat) {
    loc.at + loc.length <= end && 88 <= loc.length <= MAX_PAYLOAD + 88 && loc.at % 8 == 0 && loc.length % 8 == 0 &&
    HEADER <= Offset(loc.at) && Offset(loc.at) + loc.length <= SPAN
  }

  ghost predicate Stored(d: Digest, body: Bytes, txn: nat, end: nat, id: Hash, loc: Location) {
    id != NO_HASH && Placed(loc, end) && ReadAt(d, body, loc, txn, id).Some?
  }

  ghost predicate Indexed(d: Digest, body: Bytes, mem: Mem) {
    forall id :: id in mem.objects ==> Stored(d, body, mem.txn, mem.end, id, mem.objects[id])
  }

  ghost predicate Rooted(mem: Mem) {
    forall k :: k in mem.roots ==> 0 < |k| <= 1024 && mem.roots[k] in mem.objects
  }

  ghost predicate Sealed(d: Digest, repo: Bytes, body: Bytes, mem: Mem) {
    Sound(d) && mem.end <= |body| && mem.end % 8 == 0 && Resumes(d, repo, body[..mem.end], mem) &&
    Headers(d, repo, body, mem.end) && Indexed(d, body, mem) && Rooted(mem) &&
    mem.txn < U64 && (mem.txn == 0 <==> mem.chain == NO_HASH)
  }

  /** Nothing after the committed end will be taken for a commit. */
  ghost predicate TailIgnored(d: Digest, repo: Bytes, body: Bytes, mem: Mem)
    requires |repo| == 16 && mem.end <= |body|
  {
    Run(d, repo, body, Idle(mem.end, mem)).Some? && Run(d, repo, body, Idle(mem.end, mem)).value.mem == mem
  }

  ghost predicate Good(d: Digest, repo: Bytes, body: Bytes, mem: Mem) {
    Sealed(d, repo, body, mem) && TailIgnored(d, repo, body, mem)
  }

  // ---- Recovery of a good file ----

  /** A full replay of a good file reports exactly the committed state. */
  lemma FullReplay(d: Digest, repo: Bytes, body: Bytes, mem: Mem)
    requires Good(d, repo, body, mem)
    ensures Run(d, repo, body, Idle(0, EMPTY)).Some? && Run(d, repo, body, Idle(0, EMPTY)).value.mem == mem
  {
    hide Run, Headers, Indexed, Rooted;
    var prefix, rest := body[..mem.end], body[mem.end..];
    assert body == prefix + rest;
    assert Run(d, repo, prefix + rest, Idle(0, EMPTY)) == Run(d, repo, prefix + rest, Idle(|prefix|, mem));
  }

  /** Every indexed object reads back with the identity it is filed under. */
  lemma ReadBack(d: Digest, repo: Bytes, body: Bytes, mem: Mem, id: Hash)
    requires Sealed(d, repo, body, mem) && id in mem.objects
    ensures ReadObject(d, body, mem, id).Some? && ObjectHash(d, ReadObject(d, body, mem, id).value) == id
  {
    hide Run, Headers, Resumes, Rooted, ObjectHash, ReadRecord;
    assert Stored(d, body, mem.txn, mem.end, id, mem.objects[id]);
  }

  lemma EmptySealed(d: Digest, repo: Bytes)
    requires Sound(d) && |repo| == 16
    ensures Good(d, repo, [], EMPTY)
  {
  }

  // ---- Only the committed prefix matters ----

  lemma StoredLocal(d: Digest, body: Bytes, other: Bytes, txn: nat, end: nat, id: Hash, loc: Location)
    requires end <= |body| && end <= |other| && body[..end] == other[..end]
    requires Stored(d, body, txn, end, id, loc)
    ensures Stored(d, other, txn, end, id, loc)
  {
    hide ReadRecord, ObjectHash, Offset;
    var hi := loc.at + loc.length;
    assert body[loc.at..hi] == body[..end][loc.at..hi] == other[loc.at..hi];
    ReadLocal(d, body, other, loc.at, hi);
  }

  lemma HeadersLocal(d: Digest, repo: Bytes, body: Bytes, other: Bytes, end: nat)
    requires Headers(d, repo, body, end) && end <= |other| && body[..end] == other[..end]
    ensures Headers(d, repo, other, end)
  {
    hide SegmentHeader;
    forall s: nat | s * SPAN < end ensures other[s * SPAN..s * SPAN + HEADER] == SegmentHeader(d, repo, s) {
      assert body[s * SPAN..s * SPAN + HEADER] == body[..end][s * SPAN..s * SPAN + HEADER];
    }
  }

  lemma SealedLocal(d: Digest, repo: Bytes, body: Bytes, other: Bytes, mem: Mem)
    requires Sealed(d, repo, body, mem) && mem.end <= |other| && body[..mem.end] == other[..mem.end]
    ensures Sealed(d, repo, other, mem)
  {
    hide Resumes, Headers, Stored, Run;
    HeadersLocal(d, repo, body, other, mem.end);
    forall id | id in mem.objects ensures Stored(d, other, mem.txn, mem.end, id, mem.objects[id]) {
      StoredLocal(d, body, other, mem.txn, mem.end, id, mem.objects[id]);
    }
  }

  // ---- Appends ----

  /** The file after appending records at the committed end, any old tail cut off. */
  function Appended(d: Digest, repo: Bytes, body: Bytes, mem: Mem, recs: seq<Rec>): Bytes
    requires |repo| == 16 && mem.end <= |body|
  {
    body[..mem.end] + Append(d, repo, mem.end, recs)
  }

  /** Replay passes from one committed state to the next across an append. */
  lemma ResumesAppend(d: Digest, repo: Bytes, prefix: Bytes, mem: Mem, recs: seq<Rec>, mem': Mem)
    requires Resumes(d, repo, prefix, mem) && mem.end % 8 == 0 && recs != []
    requires |EncodeAll(d, recs)| <= SPAN - HEADER
    requires Quiet(d, Idle(Begin(mem.end, |EncodeAll(d, recs)|), mem), recs)
    requires Fold(d, Idle(Begin(mem.end, |EncodeAll(d, recs)|), mem), recs) == Next(Idle(mem'.end, mem'))
    ensures mem'.end == mem.end + |Append(d, repo, mem.end, recs)|
    ensures Resumes(d, repo, prefix + Append(d, repo, mem.end, recs), mem')
  {
    hide Run, Quiet, Fold, Append, EncodeAll, Begin;
    var a := Append(d, repo, mem.end, recs);
    forall rest ensures mem'.end == mem.end + |a|
      ensures Run(d, repo, prefix + a + rest, Idle(0, EMPTY)) == Run(d, repo, prefix + a + rest, Idle(mem'.end, mem'))
    {
      var body := prefix + (a + rest);
      assert body == prefix + a + rest;
      assert Run(d, repo, body, Idle(0, EMPTY)) == Run(d, repo, body, Idle(|prefix|, mem));
      assert body[mem.end..mem.end + |a|] == a;
      AppendRun(d, repo, body, mem, recs);
    }
    assert prefix + a + [] == prefix + a;
  }

  /** A torn append leaves a good file in the old state. */
  lemma TornGood(d: Digest, repo: Bytes, body: Bytes, mem: Mem, recs: seq<Rec>, torn: Bytes)
    requires Sealed(d, repo, body, mem) && recs != [] && |EncodeAll(d, recs)| <= SPAN - HEADER
    requires Quiet(d, Idle(Begin(mem.end, |EncodeAll(d, recs)|), mem), recs)
    requires mem.end <= |torn| < |Appended(d, repo, body, mem, recs)|
    requires torn == Appended(d, repo, body, mem, recs)[..|torn|]
    ensures Good(d, repo, torn, mem)
  {
    hide Run, Quiet, EncodeAll, Begin, Append;
    assert torn[..mem.end] == body[..mem.end];
    assert torn[mem.end..] == Append(d, repo, mem.end, recs)[..|torn| - mem.end];
    AppendTorn(d, repo, torn, mem, recs);
    hide Sealed;
    SealedLocal(d, repo, body, torn, mem);
  }

  lemma TailEmpty(d: Digest, repo: Bytes, body: Bytes, mem: Mem)
    requires |repo| == 16 && mem.end == |body|
    ensures TailIgnored(d, repo, body, mem)
  {
  }

  lemma NoSegmentStarts(end: nat, begin: nat, s: nat)
    requires Offset(end) != 0 && begin <= end + (SPAN - Offset(end))
    ensures !(end <= s * SPAN < begin)
  {
  }

  /** Headers stay complete across an append. */
  lemma HeadersAppend(d: Digest, repo: Bytes, body: Bytes, end: nat, recs: seq<Rec>)
    requires Headers(d, repo, body, end)
    requires 0 < |EncodeAll(d, recs)| <= SPAN - HEADER
    ensures var next := body[..end] + Append(d, repo, end, recs);
            Headers(d, repo, next, |next|)
  {
    hide SegmentHeader, EncodeAll;
    var required := |EncodeAll(d, recs)|;
    var next := body[..end] + Append(d, repo, end, recs);
    var begin := Begin(end, required);
    forall s: nat | s * SPAN < |next|
      ensures s * SPAN + HEADER <= |next| && next[s * SPAN..s * SPAN + HEADER] == SegmentHeader(d, repo, s)
    {
      if s * SPAN < end {
        assert next[s * SPAN..s * SPAN + HEADER] == body[s * SPAN..s * SPAN + HEADER];
      } else {
        BeginInSegment(end, required);
        NewSegment(d, repo, body, end, recs, s);
      }
    }
  }

  /** A new segment is the only one that starts in an append. */
  lemma OnlySegment(end: nat, at: nat, required: nat, s: nat)
    requires Offset(at) == 0 && end <= at < end + SPAN && end <= s * SPAN < at + HEADER + required
    requires required <= SPAN - HEADER
    ensures s * SPAN == at && s == Segment(at)
  {
    var n := Segment(at);
    assert at == n * SPAN;
    assert (n - 1) * SPAN < s * SPAN < (n + 1) * SPAN;
  }

  lemma NewSegment(d: Digest, repo: Bytes, body: Bytes, end: nat, recs: seq<Rec>, s: nat)
    requires |repo| == 16 && end <= |body| && 0 < |EncodeAll(d, recs)| <= SPAN - HEADER
    requires var next := body[..end] + Append(d, repo, end, recs); end <= s * SPAN < |next|
    ensures var next := body[..end] + Append(d, repo, end, recs);
            s * SPAN + HEADER <= |next| && next[s * SPAN..s * SPAN + HEADER] == SegmentHeader(d, repo, s)
  {
    hide SegmentHeader, EncodeAll;
    var required := |EncodeAll(d, recs)|;
    var next := body[..end] + Append(d, repo, end, recs);
    if NeedsSegment(end, required) {
      var at := SegmentAt(end);
      assert |next| == at + HEADER + required;
      OnlySegment(end, at, required, s);
      assert next == (body[..end] + Zeros(at - end)) + SegmentHeader(d, repo, s) + EncodeAll(d, recs);
    } else {
      NoSegmentStarts(end, end + required, s);
    }
  }

  // ---- Objects and roots across a commit ----

  lemma StoredLater(d: Digest, body: Bytes, txn: nat, end: nat, id: Hash, loc: Location, txn': nat, end': nat)
    requires Stored(d, body, txn, end, id, loc) && txn <= txn' && end <= end'
    ensures Stored(d, body, txn', end', id, loc)
  {
    hide ReadRecord, ObjectHash, Offset;
  }

  lemma DataReadAt(d: Digest, body: Bytes, txn: nat, value: Bytes, loc: Location)
    requires 0 < txn < U64 && |value| <= MAX_PAYLOAD && loc.at + loc.length <= |body|
    requires ReadRecord(d, body, loc.at, loc.at + loc.length) == Got(DataRec(d, txn, value), loc.length)
    ensures ReadAt(d, body, loc, txn, ObjectHash(d, value)) == Some(value)
  {
    hide ReadRecord, ObjectHash, Num, Le;
    DataPayload(d, txn, value);
  }

  lemma DataStored(d: Digest, body: Bytes, txn: nat, value: Bytes, at: nat, end: nat)
    requires Sound(d) && 0 < txn < U64 && |value| <= MAX_PAYLOAD
    requires at + RecordLength(4 + |value|) <= end <= |body| && at % 8 == 0
    requires body[at..at + RecordLength(4 + |value|)] == Encode(d, DataRec(d, txn, value))
    requires HEADER <= Offset(at) && Offset(at) + RecordLength(4 + |value|) <= SPAN
    ensures var loc := Location(at, RecordLength(4 + |value|));
            Stored(d, body, txn, end, ObjectHash(d, value), loc) &&
            ReadAt(d, body, loc, txn, ObjectHash(d, value)) == Some(value)
  {
    hide *;
    var len := RecordLength(4 + |value|);
    DataPlaced(value, at, end);
    HashNonZero(d, value);
    DataShape(d, txn, value);
    ReadWhole(d, DataRec(d, txn, value), body, at, at + len);
    DataReadAt(d, body, txn, value, Location(at, len));
    StoredIntro(d, body, txn, end, ObjectHash(d, value), Location(at, len));
  }

  lemma DataPlaced(value: Bytes, at: nat, end: nat)
    requires |value| <= MAX_PAYLOAD && at + RecordLength(4 + |value|) <= end && at % 8 == 0
    requires HEADER <= Offset(at) && Offset(at) + RecordLength(4 + |value|) <= SPAN
    ensures Placed(Location(at, RecordLength(4 + |value|)), end)
  {
    hide Offset;
  }

  lemma HashNonZero(d: Digest, value: Bytes)
    requires Sound(d)
    ensures ObjectHash(d, value) != NO_HASH
  {
  }

  lemma DataShape(d: Digest, txn: nat, value: Bytes)
    requires txn < U64 && |value| <= MAX_PAYLOAD
    ensures Encodable(DataRec(d, txn, value)) && |DataRec(d, txn, value).payload| == 4 + |value|
  {
    hide RecordLength;
    DataPayload(d, txn, value);
  }

  lemma StoredIntro(d: Digest, body: Bytes, txn: nat, end: nat, id: Hash, loc: Location)
    requires id != NO_HASH && Placed(loc, end) && ReadAt(d, body, loc, txn, id).Some?
    ensures Stored(d, body, txn, end, id, loc)
  {
  }

  ghost predicate AllStored(d: Digest, body: Bytes, txn: nat, end: nat, places: map<Hash, Location>) {
    forall id :: id in places ==> Stored(d, body, txn, end, id, places[id])
  }

  lemma AllStoredGrows(d: Digest, body: Bytes, txn: nat, end: nat, places: map<Hash, Location>, id: Hash, loc: Location)
    requires AllStored(d, body, txn, end, places) && Stored(d, body, txn, end, id, loc)
    ensures AllStored(d, body, txn, end, places[id := loc])
  {
    hide Stored;
  }

  lemma DataRecsFirst(d: Digest, txn: nat, values: seq<Bytes>)
    requires values != []
    ensures var first, rest := Encode(d, DataRec(d, txn, values[0])), EncodeAll(d, DataRecs(d, txn, values[1..]));
            EncodeAll(d, DataRecs(d, txn, values)) == first + rest && |first| == RecordLength(4 + |values[0]|)
  {
    hide Encode;
    assert DataRecs(d, txn, values)[1..] == DataRecs(d, txn, values[1..]);
  }

  lemma OffsetStep(at: nat, n: nat, m: nat)
    requires at % 8 == 0 && n % 8 == 0 && HEADER <= Offset(at) && Offset(at) + n + m <= SPAN && 0 < m
    ensures (at + n) % 8 == 0 && Offset(at + n) == Offset(at) + n
  {
    AddAligned(at, n);
    OffsetAdd(at, n);
  }

  /** The DATA records of `values` lie at `at`, whole and inside one segment. */
  ghost predicate Written(d: Digest, body: Bytes, txn: nat, values: seq<Bytes>, at: nat, end: nat) {
    var bytes := EncodeAll(d, DataRecs(d, txn, values));
    0 < txn < U64 && (forall i :: 0 <= i < |values| ==> |values[i]| <= MAX_PAYLOAD) &&
    at + |bytes| <= end <= |body| && at % 8 == 0 && body[at..at + |bytes|] == bytes &&
    (values != [] ==> HEADER <= Offset(at) && Offset(at) + |bytes| <= SPAN)
  }

  lemma WrittenFirst(d: Digest, body: Bytes, txn: nat, values: seq<Bytes>, at: nat, end: nat)
    requires Sound(d) && Written(d, body, txn, values, at, end) && values != []
    ensures var len := RecordLength(4 + |values[0]|);
            Stored(d, body, txn, end, ObjectHash(d, values[0]), Location(at, len)) &&
            Written(d, body, txn, values[1..], at + len, end)
  {
    hide Encode, EncodeAll, DataRecs, Offset, ObjectHash, Stored, RecordLength, Sound;
    var len := RecordLength(4 + |values[0]|);
    DataRecsFirst(d, txn, values);
    SplitWhole(body, at, Encode(d, DataRec(d, txn, values[0])), EncodeAll(d, DataRecs(d, txn, values[1..])));
    DataStored(d, body, txn, values[0], at, end);
    WrittenRest(d, body, txn, values, at, end, len);
  }

  lemma WrittenRest(d: Digest, body: Bytes, txn: nat, values: seq<Bytes>, at: nat, end: nat, len: nat)
    requires Written(d, body, txn, values, at, end) && values != [] && len == RecordLength(4 + |values[0]|)
    requires var rest := EncodeAll(d, DataRecs(d, txn, values[1..]));
             |EncodeAll(d, DataRecs(d, txn, values))| == len + |rest| && body[at + len..at + len + |rest|] == rest
    ensures Written(d, body, txn, values[1..], at + len, end)
  {
    hide EncodeAll, DataRecs, Offset, RecordLength;
    forall i | 0 <= i < |values[1..]| ensures |values[1..][i]| <= MAX_PAYLOAD {
      assert values[1..][i] == values[i + 1];
    }
    AddAligned(at, len);
    if |values| > 1 {
      RecordsNonempty(d, txn, values[1..]);
      OffsetStep(at, len, |EncodeAll(d, DataRecs(d, txn, values[1..]))|);
    }
  }

  lemma RecordsNonempty(d: Digest, txn: nat, values: seq<Bytes>)
    requires values != []
    ensures |EncodeAll(d, DataRecs(d, txn, values))| > 0
  {
    hide EncodeAll, DataRecs, Encode;
    DataRecsFirst(d, txn, values);
  }

  lemma PlacesStep(d: Digest, values: seq<Bytes>, at: nat, acc: map<Hash, Location>)
    ensures values == [] ==> Places(d, values, at, acc) == acc
    ensures values != [] ==>
      var len := RecordLength(4 + |values[0]|);
      Places(d, values, at, acc) == Places(d, values[1..], at + len, acc[ObjectHash(d, values[0]) := Location(at, len)])
  {
  }

  /** Every DATA record of a written batch is stored at the place the index gives it. */
  lemma {:induction false} PlacesStored(d: Digest, body: Bytes, txn: nat, values: seq<Bytes>, at: nat, end: nat,
                                        acc: map<Hash, Location>)
    requires Sound(d) && Written(d, body, txn, values, at, end) && AllStored(d, body, txn, end, acc)
    ensures AllStored(d, body, txn, end, Places(d, values, at, acc))
    decreases |values|
  {
    hide *;
    PlacesStep(d, values, at, acc);
    if values != [] {
      var id, len := ObjectHash(d, values[0]), RecordLength(4 + |values[0]|);
      WrittenFirst(d, body, txn, values, at, end);
      AllStoredGrows(d, body, txn, end, acc, id, Location(at, len));
      PlacesStored(d, body, txn, values[1..], at + len, end, acc[id := Location(at, len)]);
    }
  }

  lemma {:induction false} ParsedPossible(p: Bytes, at: nat, count: nat, previous: Option<Bytes>, mem: Mem,
                                          known: set<Hash>, acc: Changes)
    requires Possible(mem, acc, known, false)
    requires ParseEntries(p, at, count, previous, mem, known, acc).Some?
    ensures Possible(mem, ParseEntries(p, at, count, previous, mem, known, acc).value.1, known, false)
    decreases count
  {
    hide Num, Less, Possible;
    if count > 0 {
      var op, n := Num(p[at..at + 4]), Num(p[at + 4..at + 8]);
      var key := p[at + 8..at + 8 + n];
      var id: Hash := p[at + 8 + n..at + 40 + n];
      var change: Option<Hash> := if op == 1 then Some(id) else None;
      PossibleGrows(mem, acc, known, false, key, change, known, false);
      ParsedPossible(p, at + 40 + n, count - 1, Some(key), mem, known, acc[key := change]);
    }
  }

  /** A prepare record only ever decodes to changes the state before it allows. */
  lemma DecodedPossible(kind: nat, p: Bytes, mem: Mem, pending: set<Hash>)
    requires DecodePrepare(kind, p, mem, pending).Some?
    ensures Possible(mem, DecodePrepare(kind, p, mem, pending).value, pending, true)
  {
    hide Num, ParseEntries;
    if kind != PREPARE_ONE {
      var known := pending + if kind == PREPARE_REFERENCES then mem.objects.Keys else {};
      ParsedPossible(p, 44, Num(p[40..44]), None, mem, known, map[]);
    }
  }

  lemma RootedCommit(mem: Mem, changes: Changes, pending: map<Hash, Location>, mem': Mem)
    requires Rooted(mem) && Possible(mem, changes, pending.Keys, true)
    requires mem'.roots == ApplyChanges(mem.roots, changes) && mem'.objects == mem.objects + pending
    ensures Rooted(mem')
  {
  }

  lemma IndexedCommit(d: Digest, body: Bytes, body': Bytes, mem: Mem, pending: map<Hash, Location>, mem': Mem)
    requires mem.end <= |body| && mem.end <= |body'| && body[..mem.end] == body'[..mem.end]
    requires Indexed(d, body, mem) && mem.txn <= mem'.txn && mem.end <= mem'.end
    requires mem'.objects == mem.objects + pending && AllStored(d, body', mem'.txn, mem'.end, pending)
    ensures Indexed(d, body', mem')
  {
    hide Stored;
    forall id | id in mem'.objects ensures Stored(d, body', mem'.txn, mem'.end, id, mem'.objects[id]) {
      if id !in pending {
        StoredLocal(d, body, body', mem.txn, mem.end, id, mem.objects[id]);
        StoredLater(d, body', mem.txn, mem.end, id, mem.objects[id], mem'.txn, mem'.end);
      }
    }
  }

  lemma BatchBytes(d: Digest, mem: Mem, values: seq<Bytes>, kind: nat, prepare: Bytes)
    ensures var data := EncodeAll(d, DataRecs(d, mem.txn + 1, values));
            var recs := EncodeAll(d, TxRecs(d, mem, values, kind, prepare));
            |data| < |recs| && recs[..|data|] == data
  {
    hide Encode, EncodeAll, Seal;
    var r1 := Rec(kind, mem.txn + 1, NO_HASH, prepare);
    var r2 := Rec(COMMIT, mem.txn + 1, NO_HASH, Seal(d, mem, values, kind, prepare));
    EncodeAllConcat(d, DataRecs(d, mem.txn + 1, values), [r1]);
    EncodeAllConcat(d, Batch(d, mem, values, kind, prepare), [r2]);
    EncodeAllOne(d, r1);
    EncodeAllOne(d, r2);
  }

  lemma BeginAligned(end: nat, required: nat)
    requires end % 8 == 0 && 0 < required <= SPAN - HEADER
    requires end == 0 || HEADER <= Offset(end) || Offset(end) == 0
    ensures Begin(end, required) % 8 == 0 && HEADER <= Offset(Begin(end, required))
  {
    hide Offset;
    if NeedsSegment(end, required) {
      SegmentAligned(SegmentAt(end));
      OffsetStart(SegmentAt(end));
    }
  }

  lemma SegmentAligned(at: nat)
    requires Offset(at) == 0
    ensures (at + HEADER) % 8 == 0
  {
    assert at == at / SPAN * SPAN;
    assert at % 8 == 0;
  }

  lemma OffsetStart(at: nat)
    requires Offset(at) == 0
    ensures Offset(at + HEADER) == HEADER
  {
    hide Offset;
    OffsetAdd(at, HEADER);
  }

  lemma HeadersOffset(d: Digest, repo: Bytes, body: Bytes, end: nat)
    requires Headers(d, repo, body, end)
    ensures HEADER <= Offset(end) || Offset(end) == 0
  {
    hide SegmentHeader;
    if Offset(end) != 0 {
      assert Segment(end) * SPAN < end;
      var h := SegmentHeader(d, repo, Segment(end));
    }
  }

  lemma AppendedSlice(d: Digest, repo: Bytes, body: Bytes, mem: Mem, recs: seq<Rec>)
    requires |repo| == 16 && mem.end <= |body|
    ensures var next, all := Appended(d, repo, body, mem, recs), EncodeAll(d, recs);
            var begin := Begin(mem.end, |all|);
            mem.end <= begin && |next| == begin + |all| && next[begin..] == all && next[..mem.end] == body[..mem.end] &&
            next == body[..mem.end] + Append(d, repo, mem.end, recs) &&
            |next| == mem.end + |Append(d, repo, mem.end, recs)|
  {
    hide EncodeAll, SegmentHeader;
  }

  lemma TxFacts(d: Digest, mem: Mem, values: seq<Bytes>, kind: nat, prepare: Bytes, changes: Changes)
    requires TxOk(d, mem, values, kind, prepare, changes)
    ensures var recs := TxRecs(d, mem, values, kind, prepare);
            0 < |EncodeAll(d, recs)| <= SPAN - HEADER && mem.txn + 1 < U64 &&
            BatchBegin(d, mem, values, kind, prepare) == Begin(mem.end, |EncodeAll(d, recs)|) &&
            (forall i :: 0 <= i < |values| ==> |values[i]| <= MAX_PAYLOAD) &&
            TxMem(d, mem, values, kind, prepare, changes).end ==
              Begin(mem.end, |EncodeAll(d, recs)|) + |EncodeAll(d, recs)| &&
            DecodePrepare(kind, prepare, mem, Hashes(d, values)) == Some(changes)
  {
    hide EncodeAll, Batch, TxRecs, DecodePrepare, Begin, HasRoom, Distinct, Hashes, Quiet, Fold, Places, CommitHash,
         Seal;
    TxFold(d, mem, values, kind, prepare, changes);
  }

  lemma WrittenIntro(d: Digest, body: Bytes, txn: nat, values: seq<Bytes>, at: nat, all: Bytes)
    requires 0 < txn < U64 && (forall i :: 0 <= i < |values| ==> |values[i]| <= MAX_PAYLOAD)
    requires at % 8 == 0 && HEADER <= Offset(at) && Offset(at) + |all| <= SPAN
    requires at + |all| == |body| && body[at..] == all
    requires var data := EncodeAll(d, DataRecs(d, txn, values)); |data| < |all| && all[..|data|] == data
    ensures Written(d, body, txn, values, at, |body|)
  {
    hide EncodeAll, DataRecs, Offset;
    var n := |EncodeAll(d, DataRecs(d, txn, values))|;
    SliceOfSlice(body, at, |body|, 0, n);
  }

  lemma BatchWritten(d: Digest, repo: Bytes, body: Bytes, mem: Mem, values: seq<Bytes>, kind: nat, prepare: Bytes,
                     changes: Changes)
    requires |repo| == 16 && mem.end <= |body|
    requires Headers(d, repo, body, mem.end) && mem.end % 8 == 0 && TxOk(d, mem, values, kind, prepare, changes)
    ensures var next := Appended(d, repo, body, mem, TxRecs(d, mem, values, kind, prepare));
            Written(d, next, mem.txn + 1, values, BatchBegin(d, mem, values, kind, prepare), |next|)
  {
    hide *;
    var recs := TxRecs(d, mem, values, kind, prepare);
    var all := EncodeAll(d, recs);
    TxFacts(d, mem, values, kind, prepare, changes);
    AppendedSlice(d, repo, body, mem, recs);
    BatchBytes(d, mem, values, kind, prepare);
    HeadersOffset(d, repo, body, mem.end);
    BeginAligned(mem.end, |all|);
    BeginInSegment(mem.end, |all|);
    WrittenIntro(d, Appended(d, repo, body, mem, recs), mem.txn + 1, values, Begin(mem.end, |all|), all);
  }

  lemma NothingStored(d: Digest, body: Bytes, txn: nat, end: nat)
    ensures AllStored(d, body, txn, end, map[])
  {
  }

  lemma GoodIntro(d: Digest, repo: Bytes, body: Bytes, mem: Mem)
    requires Sound(d) && mem.end == |body| && mem.end % 8 == 0 && Resumes(d, repo, body, mem)
    requires Headers(d, repo, body, mem.end) && Indexed(d, body, mem) && Rooted(mem)
    requires mem.txn < U64 && (mem.txn == 0 <==> mem.chain == NO_HASH)
    ensures Good(d, repo, body, mem)
  {
    hide Sound, Headers, Indexed, Rooted, Run;
    assert body[..mem.end] == body;
    TailEmpty(d, repo, body, mem);
  }

  lemma TxMemFacts(d: Digest, mem: Mem, values: seq<Bytes>, kind: nat, prepare: Bytes, changes: Changes)
    requires Sound(d)
    ensures var mem' := TxMem(d, mem, values, kind, prepare, changes);
            mem'.txn == mem.txn + 1 && mem'.chain != NO_HASH && mem'.roots == ApplyChanges(mem.roots, changes) &&
            mem'.objects == mem.objects + Places(d, values, BatchBegin(d, mem, values, kind, prepare), map[])
  {
    hide EncodeAll, Places, Begin, ApplyChanges;
  }

  lemma SealedParts(d: Digest, repo: Bytes, body: Bytes, mem: Mem)
    requires Sealed(d, repo, body, mem)
    ensures Sound(d) && |repo| == 16 && mem.end <= |body| && mem.end % 8 == 0 && Resumes(d, repo, body[..mem.end], mem)
    ensures Headers(d, repo, body, mem.end) && Indexed(d, body, mem) && Rooted(mem)
  {
    hide Sound, Headers, Indexed, Rooted;
  }

  /** A completed commit leaves a good file whose state is the committed one. */
  lemma CommitGood(d: Digest, repo: Bytes, body: Bytes, mem: Mem, values: seq<Bytes>, kind: nat, prepare: Bytes,
                   changes: Changes)
    requires Sealed(d, repo, body, mem) && TxOk(d, mem, values, kind, prepare, changes)
    ensures |repo| == 16 && mem.end <= |body| &&
            var next := Appended(d, repo, body, mem, TxRecs(d, mem, values, kind, prepare));
            var mem' := TxMem(d, mem, values, kind, prepare, changes);
            |next| == mem'.end && Good(d, repo, next, mem')
  {
    hide *;
    SealedParts(d, repo, body, mem);
    var recs := TxRecs(d, mem, values, kind, prepare);
    var next := Appended(d, repo, body, mem, recs);
    var mem' := TxMem(d, mem, values, kind, prepare, changes);
    var begin := BatchBegin(d, mem, values, kind, prepare);
    var pending := Places(d, values, begin, map[]);
    TxFacts(d, mem, values, kind, prepare, changes);
    TxMemFacts(d, mem, values, kind, prepare, changes);
    TxFold(d, mem, values, kind, prepare, changes);
    AppendedSlice(d, repo, body, mem, recs);
    ResumesAppend(d, repo, body[..mem.end], mem, recs, mem');
    HeadersAppend(d, repo, body, mem.end, recs);
    BatchWritten(d, repo, body, mem, values, kind, prepare, changes);
    NothingStored(d, next, mem.txn + 1, |next|);
    PlacesStored(d, next, mem.txn + 1, values, begin, |next|, map[]);
    IndexedCommit(d, body, next, mem, pending, mem');
    DecodedPossible(kind, prepare, mem, Hashes(d, values));
    PlacesKeys(d, values, begin, map[]);
    assert pending.Keys == Hashes(d, values);
    RootedCommit(mem, changes, pending, mem');
    EndAligned(d, repo, body, mem, recs);
    GoodIntro(d, repo, next, mem');
  }

  lemma EndAligned(d: Digest, repo: Bytes, body: Bytes, mem: Mem, recs: seq<Rec>)
    requires Headers(d, repo, body, mem.end) && mem.end % 8 == 0 && 0 < |EncodeAll(d, recs)| <= SPAN - HEADER
    ensures (mem.end + |Append(d, repo, mem.end, recs)|) % 8 == 0
  {
    hide Headers, EncodeAll, Offset, SegmentAt;
    EncodeAllAligned(d, recs);
    HeadersOffset(d, repo, body, mem.end);
    BeginAligned(mem.end, |EncodeAll(d, recs)|);
    AddAligned(Begin(mem.end, |EncodeAll(d, recs)|), |EncodeAll(d, recs)|);
  }

  lemma WrittenReads(d: Digest, body: Bytes, txn: nat, values: seq<Bytes>, at: nat, end: nat)
    requires Sound(d) && Written(d, body, txn, values, at, end) && values != []
    ensures ReadAt(d, body, Location(at, RecordLength(4 + |values[0]|)), txn, ObjectHash(d, values[0])) ==
      Some(values[0])
  {
    hide Encode, EncodeAll, DataRecs, Offset, ObjectHash, Stored, RecordLength, Sound, ReadAt;
    DataRecsFirst(d, txn, values);
    SplitWhole(body, at, Encode(d, DataRec(d, txn, values[0])), EncodeAll(d, DataRecs(d, txn, values[1..])));
    DataStored(d, body, txn, values[0], at, end);
  }

  /** What `put` stored is what a later read of that object returns. */
  lemma PutReads(d: Digest, repo: Bytes, body: Bytes, mem: Mem, value: Bytes, kind: nat, prepare: Bytes,
                 changes: Changes)
    requires Sealed(d, repo, body, mem) && TxOk(d, mem, [value], kind, prepare, changes) && |repo| == 16
    requires mem.end <= |body|
    ensures var next := Appended(d, repo, body, mem, TxRecs(d, mem, [value], kind, prepare));
            ReadObject(d, next, TxMem(d, mem, [value], kind, prepare, changes), ObjectHash(d, value)) == Some(value)
  {
    hide Sealed, TxOk, Appended, TxRecs, TxMem, BatchBegin, ObjectHash, RecordLength, ReadAt, Written, ApplyChanges;
    var begin := BatchBegin(d, mem, [value], kind, prepare);
    SealedParts(d, repo, body, mem);
    BatchWritten(d, repo, body, mem, [value], kind, prepare, changes);
    WrittenReads(d, Appended(d, repo, body, mem, TxRecs(d, mem, [value], kind, prepare)), mem.txn + 1, [value], begin,
                 |Appended(d, repo, body, mem, TxRecs(d, mem, [value], kind, prepare))|);
    TxMemFacts(d, mem, [value], kind, prepare, changes);
    assert [value][1..] == [];
  }
}
