/** Framing of journal records and segment headers (daemon/journal.cpp).

    The two checksums are parameters: every result below holds for any CRC and
    any 32-byte digest. Positions are relative to the journal body, which starts
    BASE bytes into the container file; positions written to disk add BASE. */
module JournalCodec {
  import opened Bytes

  const BASE: nat := 65536
  const SPAN: nat := 16777216
  const HEADER: nat := 4096
  const MAX_PAYLOAD: nat := 262144
  const MAX_RECORD: nat := 1048576
  const MAX_BATCH: nat := 2097152

  /** Where a body position lies inside its segment, and which segment that is. */
  function Offset(at: nat): (r: nat)
    ensures r < SPAN && r <= at
  {
    at % 16777216
  }

  function Segment(at: nat): nat {
    at / 16777216
  }

  type Hash = h: Bytes | |h| == 32 witness seq(32, i => 0)
  type Word = n: int | 0 <= n < 0x1_0000_0000
  const NO_HASH: Hash := Zeros(32)

  /** Object identities in the order of a std::map keyed by them. */
  ghost function SortedHashes(s: set<Hash>): (ids: seq<Hash>)
    ensures |ids| == |s| && (forall id :: id in ids <==> id in s) && Sorted(ids)
    decreases |s|
  {
    if s == {} then []
    else
      assert exists k: Hash :: IsLeast(k, s) by { var k := LeastExists(s); assert k in s; }
      var k: Hash :| IsLeast(k, s);
      [k] + SortedHashes(s - {k})
  }

  /** References by key. */
  type Refs = map<Bytes, Hash>

  /** New references by key; None deletes the key. */
  type Changes = map<Bytes, Option<Hash>>

  function ApplyChanges(roots: map<Bytes, Hash>, changes: Changes): (r: map<Bytes, Hash>)
    ensures forall k :: k in r <==> (if k in changes then changes[k].Some? else k in roots)
    ensures forall k :: k in r ==> r[k] == if k in changes then changes[k].value else roots[k]
  {
    map k | k in roots.Keys + changes.Keys && (if k in changes then changes[k].Some? else k in roots)
        :: if k in changes then changes[k].value else roots[k]
  }

  /** One entry of a batch: a payload to put, an object to refer to, or neither to delete. */
  datatype Mutation = Mutation(key: Bytes, value: Option<Bytes>, reference: Option<Hash>)

  ghost predicate OnceEach(ms: seq<Mutation>) {
    forall i, j :: 0 <= i < j < |ms| ==> ms[i].key != ms[j].key
  }

  datatype Digest = Digest(crc: Bytes -> Word, sha: Bytes -> Hash)

  const DATA: nat := 1
  const PREPARE_ONE: nat := 2
  const COMMIT: nat := 3
  const CHECKPOINT: nat := 5
  const PREPARE_VALUES: nat := 7
  const PREPARE_REFERENCES: nat := 8

  const MAGIC: Bytes := [0x46, 0x46, 0x52, 0x30]
  const TRAILER: Bytes := [0x46, 0x46, 0x52, 0x45, 0x4e, 0x44, 0x30, 0x30]
  const SEGMENT: Bytes := [0x46, 0x46, 0x53, 0x45, 0x47, 0x30, 0x30, 0x30]

  const FLAGS: Bytes := [0, 0, 0, 0]

  datatype Rec = Rec(kind: nat, txn: nat, oid: Hash, payload: Bytes)

  datatype Read = Bad | Torn | Got(rec: Rec, length: nat)

  function RecordLength(n: nat): (len: nat)
    ensures len % 8 == 0 && 80 + n <= len < 88 + n
  {
    (64 + n + 7) / 8 * 8 + 16
  }

  predicate Encodable(r: Rec) {
    r.kind < U16 && r.txn < U64 && RecordLength(|r.payload|) <= MAX_RECORD
  }

  /** The 60 header bytes its own checksum covers. */
  function Head(r: Rec): (h: Bytes)
    ensures |h| == 60
  {
    MAGIC + Le(r.kind, 2) + Le(1, 2) + Le(RecordLength(|r.payload|), 4) + Le(|r.payload|, 4) +
    Le(r.txn, 8) + r.oid + FLAGS
  }

  function Padding(n: nat): (p: Bytes)
    ensures |p| == RecordLength(n) - 80 - n && |p| < 8
  {
    Zeros(RecordLength(n) - 80 - n)
  }

  function Tail(d: Digest, payload: Bytes): (t: Bytes)
    ensures |t| == 16
  {
    Le(d.crc(payload), 4) + Le(RecordLength(|payload|), 4) + TRAILER
  }

  function Encode(d: Digest, r: Rec): (b: Bytes)
    ensures |b| == RecordLength(|r.payload|)
  {
    Head(r) + Le(d.crc(Head(r)), 4) + r.payload + Padding(|r.payload|) + Tail(d, r.payload)
  }

  /** The record and payload lengths a 64-byte header claims, when it is acceptable. */
  function ReadHead(d: Digest, h: Bytes): Option<(nat, nat)>
    requires |h| == 64
  {
    var len := Num(h[8..12]);
    var n := Num(h[12..16]);
    if h[0..4] == MAGIC && Num(h[60..64]) == d.crc(h[..60]) &&
       80 <= len <= MAX_RECORD && len % 8 == 0 && n <= len - 80 && len == RecordLength(n)
    then Some((len, n)) else None
  }

  function ReadBody(d: Digest, b: Bytes, n: nat): Read
    requires |b| >= 80 && n <= |b| - 80
  {
    var len := |b|;
    if Num(b[6..8]) != 1 || Num(b[56..60]) != 0 then Bad
    else if Num(b[len - 12..len - 8]) != len || b[len - 8..] != TRAILER then Bad
    else if Num(b[len - 16..len - 12]) != d.crc(b[64..64 + n]) then Bad
    else if !AllZero(b[64 + n..len - 16]) then Bad
    else Got(Rec(Num(b[4..6]), Num(b[16..24]), b[24..56], b[64..64 + n]), len)
  }

  /** A short final record is a recoverable tail; a complete one must check out. */
  function ReadRecord(d: Digest, body: Bytes, at: nat, size: nat): (r: Read)
    requires at <= size <= |body|
    ensures r.Got? ==> 80 <= r.length <= size - at
  {
    if size - at < 64 then Torn
    else
      match ReadHead(d, body[at..at + 64])
      case None => Bad
      case Some((len, n)) =>
        if len > SPAN - Offset(at) then Bad
        else if size - at < len then Torn
        else ReadBody(d, body[at..at + len], n)
  }

  function SegmentHeader(d: Digest, repo: Bytes, id: nat): (h: Bytes)
    requires |repo| == 16
    ensures |h| == HEADER
  {
    var fields := SEGMENT + repo + Le(id, 8) + Le(1, 8) + Zeros(4052);
    fields + Le(d.crc(fields), 4)
  }

  /** What an object's identity digests: the schema, its length and its bytes. */
  function ObjectHash(d: Digest, value: Bytes): Hash {
    d.sha([0x66, 0x6f, 0x72, 0x6b, 0x66, 0x73, 0x2e, 0x6f, 0x62, 0x6a, 0x65, 0x63, 0x74, 0x2e, 0x76, 0x30] +
          Le(4, 2) + Le(0, 2) + Le(|value|, 8) + value)
  }

  function CommitHash(d: Digest, payload: Bytes): Hash {
    d.sha([0x66, 0x6f, 0x72, 0x6b, 0x66, 0x73, 0x2e, 0x63, 0x6f, 0x6d, 0x6d, 0x69, 0x74, 0x2e, 0x76, 0x30] + payload)
  }

  // ---- Reading back what was written ----

  lemma HeadParts(r: Rec)
    ensures var h := Head(r);
            h[0..4] == MAGIC && h[4..6] == Le(r.kind, 2) && h[6..8] == Le(1, 2) &&
            h[8..12] == Le(RecordLength(|r.payload|), 4) && h[12..16] == Le(|r.payload|, 4) &&
            h[16..24] == Le(r.txn, 8) && h[24..56] == r.oid && h[56..60] == FLAGS
  {
  }

  lemma HeadFields(r: Rec)
    requires Encodable(r)
    ensures var h := Head(r);
            h[0..4] == MAGIC && Num(h[4..6]) == r.kind && Num(h[6..8]) == 1 &&
            Num(h[8..12]) == RecordLength(|r.payload|) && Num(h[12..16]) == |r.payload| &&
            Num(h[16..24]) == r.txn && h[24..56] == r.oid && Num(h[56..60]) == 0
  {
    HeadParts(r);
    FitsU16(r.kind);
    FitsU16(1);
    FitsU32(RecordLength(|r.payload|));
    FitsU32(|r.payload|);
    FitsU64(r.txn);
    assert FLAGS == Le(0, 4);
    FitsU32(0);
  }

  lemma EncodeParts(d: Digest, r: Rec)
    ensures var b := Encode(d, r);
            var n := |r.payload|;
            var len := RecordLength(n);
            b[..60] == Head(r) && b[60..64] == Le(d.crc(Head(r)), 4) && b[64..64 + n] == r.payload &&
            b[64 + n..len - 16] == Padding(n) && b[len - 16..len - 12] == Le(d.crc(r.payload), 4) &&
            b[len - 12..len - 8] == Le(len, 4) && b[len - 8..] == TRAILER
  {
    var b, n := Encode(d, r), |r.payload|;
    var len := RecordLength(n);
    var t := Tail(d, r.payload);
    assert b[len - 16..] == t;
    assert b[len - 16..len - 12] == t[..4];
    assert b[len - 12..len - 8] == t[4..8];
    assert b[len - 8..] == t[8..];
  }

  lemma ReadHeadOf(d: Digest, h: Bytes, c: Bytes, n: nat)
    requires |h| == 60 && |c| == 4
    requires h[0..4] == MAGIC && Num(h[8..12]) == RecordLength(n) && Num(h[12..16]) == n
    requires RecordLength(n) <= MAX_RECORD && Num(c) == d.crc(h)
    ensures ReadHead(d, h + c) == Some((RecordLength(n), n))
  {
    var b := h + c;
    assert b[..60] == h && b[60..64] == c;
    assert b[0..4] == h[0..4] && b[8..12] == h[8..12] && b[12..16] == h[12..16];
  }

  lemma ReadHeadOfEncoded(d: Digest, r: Rec)
    requires Encodable(r)
    ensures ReadHead(d, Encode(d, r)[..64]) == Some((RecordLength(|r.payload|), |r.payload|))
  {
    HeadFields(r);
    FitsU32(d.crc(Head(r)));
    ReadHeadOf(d, Head(r), Le(d.crc(Head(r)), 4), |r.payload|);
    assert Encode(d, r)[..64] == Head(r) + Le(d.crc(Head(r)), 4);
  }

  lemma ReadBodyOf(d: Digest, b: Bytes, r: Rec)
    requires |b| == RecordLength(|r.payload|)
    requires Num(b[4..6]) == r.kind && Num(b[6..8]) == 1 && Num(b[16..24]) == r.txn && b[24..56] == r.oid
    requires Num(b[56..60]) == 0
    requires b[64..64 + |r.payload|] == r.payload && AllZero(b[64 + |r.payload|..|b| - 16])
    requires Num(b[|b| - 16..|b| - 12]) == d.crc(r.payload) && Num(b[|b| - 12..|b| - 8]) == |b|
    requires b[|b| - 8..] == TRAILER
    ensures ReadBody(d, b, |r.payload|) == Got(r, |b|)
  {
  }

  lemma FieldsOfPrefix(b: Bytes, h: Bytes)
    requires |h| == 60 <= |b| && b[..60] == h
    ensures b[4..6] == h[4..6] && b[6..8] == h[6..8] && b[16..24] == h[16..24]
    ensures b[24..56] == h[24..56] && b[56..60] == h[56..60]
  {
  }

  lemma ReadBodyOfEncoded(d: Digest, r: Rec)
    requires Encodable(r)
    ensures ReadBody(d, Encode(d, r), |r.payload|) == Got(r, RecordLength(|r.payload|))
  {
    var b, h := Encode(d, r), Head(r);
    EncodeParts(d, r);
    FieldsOfPrefix(b, h);
    HeadFields(r);
    FitsU32(d.crc(r.payload));
    FitsU32(RecordLength(|r.payload|));
    ReadBodyOf(d, b, r);
  }

  /** A record found whole inside its segment is read back as written. */
  lemma ReadWhole(d: Digest, r: Rec, body: Bytes, at: nat, size: nat)
    requires Encodable(r)
    requires at + RecordLength(|r.payload|) <= size <= |body|
    requires body[at..at + RecordLength(|r.payload|)] == Encode(d, r)
    requires Offset(at) + RecordLength(|r.payload|) <= SPAN
    ensures ReadRecord(d, body, at, size) == Got(r, RecordLength(|r.payload|))
  {
    hide Encode, ReadHead, ReadBody;
    assert body[at..at + 64] == body[at..at + RecordLength(|r.payload|)][..64];
    ReadHeadOfEncoded(d, r);
    ReadBodyOfEncoded(d, r);
  }

  /** A record cut anywhere before its last byte is an unfinished tail, never an error. */
  lemma ReadTorn(d: Digest, r: Rec, body: Bytes, at: nat)
    requires Encodable(r)
    requires at <= |body| < at + RecordLength(|r.payload|)
    requires body[at..] == Encode(d, r)[..|body| - at]
    requires Offset(at) + RecordLength(|r.payload|) <= SPAN
    ensures ReadRecord(d, body, at, |body|) == Torn
  {
    if |body| - at >= 64 {
      assert body[at..at + 64] == Encode(d, r)[..64];
      ReadHeadOfEncoded(d, r);
    }
  }

  /** Reading a record looks only at the bytes up to its end. */
  lemma ReadLocal(d: Digest, body: Bytes, other: Bytes, at: nat, size: nat)
    requires at <= size <= |body| && size <= |other|
    requires body[at..size] == other[at..size]
    ensures ReadRecord(d, body, at, size) == ReadRecord(d, other, at, size)
  {
    if size - at >= 64 {
      assert body[at..at + 64] == body[at..size][..64] == other[at..at + 64];
      var len := Num(body[at..at + 64][8..12]);
      if len <= size - at {
        assert body[at..at + len] == body[at..size][..len] == other[at..at + len];
      }
    }
  }
  // ---- Nothing else is read as a record ----

  function Cap(n: nat): nat {
    if n == 0 then 1 else 256 * Cap(n - 1)
  }

  lemma {:induction false} NumBelow(s: Bytes)
    ensures Num(s) < Cap(|s|)
  {
    if s != [] { NumBelow(s[1..]); }
  }

  lemma Caps()
    ensures Cap(2) == U16 && Cap(8) == U64
  {
    assert Cap(4) == 256 * 256 * 256 * 256;
  }

  lemma HeadOf(b: Bytes, r: Rec)
    requires |b| == 60 && b[0..4] == MAGIC && b[4..6] == Le(r.kind, 2) && b[6..8] == Le(1, 2)
    requires b[8..12] == Le(RecordLength(|r.payload|), 4) && b[12..16] == Le(|r.payload|, 4)
    requires b[16..24] == Le(r.txn, 8) && b[24..56] == r.oid && b[56..60] == FLAGS
    ensures b == Head(r)
  {
    hide Le, RecordLength;
    assert b == b[0..4] + b[4..6] + b[6..8] + b[8..12] + b[12..16] + b[16..24] + b[24..56] + b[56..60];
  }

  lemma NumIs(s: Bytes, v: nat)
    requires Num(s) == v
    ensures s == Le(v, |s|) && v < Cap(|s|)
  {
    LeNum(s);
    NumBelow(s);
  }

  /** A header that is accepted is the header of a record. */
  lemma HeadRead(d: Digest, b: Bytes, r: Rec)
    requires |b| == 64 && ReadHead(d, b) == Some((RecordLength(|r.payload|), |r.payload|))
    requires Num(b[4..6]) == r.kind && Num(b[16..24]) == r.txn && b[24..56] == r.oid
    requires Num(b[6..8]) == 1 && Num(b[56..60]) == 0
    ensures b == Head(r) + Le(d.crc(Head(r)), 4) && Encodable(r)
  {
    hide Head, Le, Num, Cap, RecordLength;
    NumIs(b[4..6], r.kind);
    NumIs(b[6..8], 1);
    NumIs(b[8..12], RecordLength(|r.payload|));
    NumIs(b[12..16], |r.payload|);
    NumIs(b[16..24], r.txn);
    NumIs(b[56..60], 0);
    NumIs(b[60..64], d.crc(b[..60]));
    Caps();
    ZeroFlags();
    FieldsOfFront(b);
    HeadOf(b[..60], r);
    assert b == b[..60] + b[60..64];
  }

  lemma ZeroFlags()
    ensures FLAGS == Le(0, 4)
  {
  }

  lemma FieldsOfFront(b: Bytes)
    requires |b| == 64
    ensures var h := b[..60];
      h[0..4] == b[0..4] && h[4..6] == b[4..6] && h[6..8] == b[6..8] && h[8..12] == b[8..12] &&
      h[12..16] == b[12..16] && h[16..24] == b[16..24] && h[24..56] == b[24..56] && h[56..60] == b[56..60]
  {
  }

  lemma TailRead(d: Digest, b: Bytes, n: nat)
    requires |b| == RecordLength(n) && ReadBody(d, b, n).Got?
    ensures b[64..] == b[64..64 + n] + Padding(n) + Tail(d, b[64..64 + n])
  {
    hide Le, Num, RecordLength;
    var len, payload := |b|, b[64..64 + n];
    NumIs(b[len - 16..len - 12], d.crc(payload));
    NumIs(b[len - 12..len - 8], len);
    assert b[64 + n..len - 16] == Padding(n);
    assert b[len - 16..] == b[len - 16..len - 12] + b[len - 12..len - 8] + b[len - 8..];
    assert b[64..] == payload + b[64 + n..len - 16] + b[len - 16..];
  }

  lemma BodyRead(d: Digest, b: Bytes, n: nat)
    requires |b| == RecordLength(n) && ReadHead(d, b[..64]) == Some((|b|, n)) && ReadBody(d, b, n).Got?
    ensures var r := ReadBody(d, b, n).rec;
      |r.payload| == n && r.payload == b[64..64 + n] && Encodable(r) && b == Encode(d, r)
  {
    hide Head, Tail, Padding, ReadHead, RecordLength, Le, Num;
    var r := ReadBody(d, b, n).rec;
    FieldsOfHead(b);
    SizeRead(d, b[..64]);
    HeadRead(d, b[..64], r);
    TailRead(d, b, n);
    assert b == b[..64] + b[64..];
  }

  lemma FieldsOfHead(b: Bytes)
    requires |b| >= 64
    ensures b[..64][4..6] == b[4..6] && b[..64][6..8] == b[6..8] && b[..64][16..24] == b[16..24]
    ensures b[..64][24..56] == b[24..56] && b[..64][56..60] == b[56..60]
  {
  }

  lemma SizeRead(d: Digest, h: Bytes)
    requires |h| == 64 && ReadHead(d, h).Some?
    ensures ReadHead(d, h).value.0 == RecordLength(ReadHead(d, h).value.1) <= MAX_RECORD
  {
  }

  /** What is read comes from the header and the bytes it claims. */
  lemma Source(d: Digest, body: Bytes, at: nat, size: nat) returns (n: nat)
    requires at <= size <= |body| && ReadRecord(d, body, at, size).Got?
    ensures var r, len := ReadRecord(d, body, at, size), RecordLength(n);
      at + len <= size && Offset(at) + len <= SPAN && ReadHead(d, body[at..at + len][..64]) == Some((len, n)) &&
      r == ReadBody(d, body[at..at + len], n) && r.length == len
  {
    hide ReadHead, RecordLength;
    SizeRead(d, body[at..at + 64]);
    n := ReadHead(d, body[at..at + 64]).value.1;
    assert body[at..at + RecordLength(n)][..64] == body[at..at + 64];
  }

  /** Only the exact bytes of a record, whole and inside its segment, are read as one. */
  lemma OnlyRecords(d: Digest, body: Bytes, at: nat, size: nat)
    requires at <= size <= |body|
    ensures var r := ReadRecord(d, body, at, size);
      r.Got? ==>
        Encodable(r.rec) && r.length == RecordLength(|r.rec.payload|) && Offset(at) + r.length <= SPAN &&
        body[at..at + r.length] == Encode(d, r.rec)
  {
    hide Encode, ReadHead, ReadBody, RecordLength, ReadRecord;
    if ReadRecord(d, body, at, size).Got? {
      var n := Source(d, body, at, size);
      BodyRead(d, body[at..at + RecordLength(n)], n);
    }
  }

  lemma SameHead(d: Digest, b: Bytes, r: Rec)
    requires Encodable(r) && |b| == RecordLength(|r.payload|) && b[..64] == Encode(d, r)[..64]
    requires ReadBody(d, b, |r.payload|).Got?
    ensures ReadBody(d, b, |r.payload|).rec == r.(payload := b[64..64 + |r.payload|])
  {
    hide Encode, RecordLength, Head;
    EncodeParts(d, r);
    HeadFields(r);
    assert b[..60] == b[..64][..60] == Encode(d, r)[..64][..60] == Encode(d, r)[..60];
    FieldsOfPrefix(b, Head(r));
  }

  /** A whole record that is not exactly the encoding of its header and payload is an error:
      a payload that fails its checksum, a wrong trailer, or padding that is not zero. */
  lemma DamageFound(d: Digest, r: Rec, body: Bytes, at: nat, size: nat)
    requires Encodable(r) && at + RecordLength(|r.payload|) <= size <= |body|
    requires Offset(at) + RecordLength(|r.payload|) <= SPAN && body[at..at + 64] == Encode(d, r)[..64]
    requires body[at..at + RecordLength(|r.payload|)] !=
      Encode(d, r.(payload := body[at + 64..at + 64 + |r.payload|]))
    ensures ReadRecord(d, body, at, size) == Bad
  {
    hide Encode, ReadHead, ReadBody, RecordLength;
    ReadHeadOfEncoded(d, r);
    var n := |r.payload|;
    var b := body[at..at + RecordLength(n)];
    assert b[..64] == body[at..at + 64];
    SliceOfSlice(body, at, at + RecordLength(n), 64, 64 + n);
    assert ReadRecord(d, body, at, size) == ReadBody(d, b, n);
    if ReadBody(d, b, n).Got? {
      SameHead(d, b, r);
      BodyRead(d, b, n);
      assert false;
    }
    NeverTorn(d, b, n);
  }

  lemma NeverTorn(d: Digest, b: Bytes, n: nat)
    requires |b| >= 80 && n <= |b| - 80
    ensures !ReadBody(d, b, n).Torn?
  {
  }

  lemma ChecksumFound(d: Digest, r: Rec, body: Bytes, at: nat, size: nat)
    requires Encodable(r) && at + RecordLength(|r.payload|) <= size <= |body|
    requires Offset(at) + RecordLength(|r.payload|) <= SPAN && body[at..at + 64] == Encode(d, r)[..64]
    requires var end := at + RecordLength(|r.payload|);
      Num(body[end - 16..end - 12]) != d.crc(body[at + 64..at + 64 + |r.payload|])
    ensures ReadRecord(d, body, at, size) == Bad
  {
    hide Encode, ReadHead, ReadBody, RecordLength, ReadRecord, Le, Num;
    var payload, len := body[at + 64..at + 64 + |r.payload|], RecordLength(|r.payload|);
    var r' := r.(payload := payload);
    EncodeParts(d, r');
    FitsU32(d.crc(payload));
    SliceOfSlice(body, at, at + len, len - 16, len - 12);
    DamageFound(d, r, body, at, size);
  }
}
