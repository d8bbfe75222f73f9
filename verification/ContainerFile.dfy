/** The container file: two anchors in front of the journal, and every run of
    commits, checkpoints, crashes and reopenings over it (daemon/container.cpp). */
module ContainerFile {
  import opened Bytes
  import opened JournalCodec
  import opened JournalReplay
  import opened JournalStore
  import opened JournalCheckpoint

  const ANCHOR: nat := 4096
  const FORKFS: Bytes := [0x46, 0x4f, 0x52, 0x4b, 0x46, 0x53, 0x30, 0x30]

  datatype Anchor = Anchor(repo: Bytes, generation: nat, anchored: Option<Checkpoint>, created: nat)

  // ---- Anchor bytes ----

  function EncodeReference(anchored: Option<Checkpoint>): (b: Bytes)
    ensures |b| == 64
  {
    match anchored
    case None => Zeros(56) + Le(BASE, 8)
    case Some(c) => Le(BASE + c.at, 8) + Le(c.length, 8) + Le(c.txn, 8) + c.hash + Le(BASE + c.start, 8)
  }

  function AnchorFields(a: Anchor): (b: Bytes)
    requires |a.repo| == 16
    ensures |b| == 4092
  {
    FORKFS + Le(0, 4) + Le(ANCHOR, 4) + a.repo + Le(a.generation, 8) + Zeros(16) + Le(SPAN, 8) +
    EncodeReference(a.anchored) + Le(a.created, 8) + Zeros(3956)
  }

  function EncodeAnchor(d: Digest, a: Anchor): (b: Bytes)
    requires |a.repo| == 16
    ensures |b| == ANCHOR
  {
    AnchorFields(a) + Le(d.crc(AnchorFields(a)), 4)
  }

  predicate ValidAnchor(d: Digest, b: Bytes) {
    |b| == ANCHOR && b[..8] == FORKFS && Num(b[4092..]) == d.crc(b[..4092])
  }

  /** A checksum-valid anchor this version understands. */
  predicate Supported(b: Bytes)
    requires |b| == ANCHOR
  {
    Num(b[8..10]) == 0 && Num(b[10..12]) == 0 && Num(b[12..16]) == ANCHOR &&
    Num(b[40..48]) == 0 && Num(b[48..56]) == 0 && Num(b[56..64]) == SPAN &&
    (Num(b[64..72]) == 0 ==> AllZero(b[64..120]) && Num(b[120..128]) == BASE) &&
    AllZero(b[136..4092]) && !AllZero(b[16..32])
  }

  function Generation(b: Bytes): nat
    requires |b| == ANCHOR
  {
    Num(b[32..40])
  }

  datatype Choice = Refused | Chosen(bytes: Bytes, second: bool)

  /** Which anchor the constructor goes by. */
  function Choose(d: Digest, a: Bytes, b: Bytes): Choice
    requires |a| == ANCHOR && |b| == ANCHOR
  {
    var va, vb := ValidAnchor(d, a), ValidAnchor(d, b);
    if !va && !vb then Refused
    else if (va && !Supported(a)) || (vb && !Supported(b)) then Refused
    else if va && vb && a[16..32] != b[16..32] then Refused
    else if va && vb && Generation(a) == Generation(b) && a != b then Refused
    else if !vb || (va && Generation(a) >= Generation(b)) then Chosen(a, false)
    else Chosen(b, true)
  }

  datatype Disk = Disk(a: Bytes, b: Bytes, body: Bytes)

  datatype Opened = Rejected | Opened(repo: Bytes, mem: Mem)

  /** The checkpoint an anchor refers to. */
  function ReferenceAt(x: Bytes, at: nat, start: nat): Checkpoint
    requires |x| == ANCHOR
  {
    var hash := x[88..120];
    assert |hash| == 32;
    Checkpoint(at, Num(x[72..80]), Num(x[80..88]), start, hash)
  }

  /** Opening a container: pick an anchor, restore its checkpoint, replay the rest. */
  function Open(d: Digest, disk: Disk): Opened
    requires |disk.a| == ANCHOR && |disk.b| == ANCHOR
  {
    match Choose(d, disk.a, disk.b)
    case Refused => Rejected
    case Chosen(x, _) =>
      var repo := x[16..32];
      var at, start := Num(x[64..72]), Num(x[120..128]);
      if at != 0 && (at < BASE || start < BASE) then Rejected
      else
        var anchored := if at == 0 then None else Some(ReferenceAt(x, at - BASE, start - BASE));
        match Recover(d, repo, disk.body, anchored)
        case None => Rejected
        case Some(mem) => Opened(repo, mem)
  }

  // ---- What was encoded is what is read ----

  ghost predicate AnchorFits(a: Anchor) {
    |a.repo| == 16 && !AllZero(a.repo) && a.generation < U64 && a.created < U64 &&
    (a.anchored.Some? ==>
       var c := a.anchored.value;
       BASE + c.at < U64 && c.length < U64 && c.txn < U64 && BASE + c.start < U64)
  }

  lemma ReferenceParts(anchored: Option<Checkpoint>)
    ensures var b := EncodeReference(anchored);
            match anchored
            case None => AllZero(b[..56]) && b[..8] == Le(0, 8) && b[56..] == Le(BASE, 8)
            case Some(c) => b[..8] == Le(BASE + c.at, 8) && b[8..16] == Le(c.length, 8) && b[16..24] == Le(c.txn, 8) &&
                            b[24..56] == c.hash && b[56..] == Le(BASE + c.start, 8)
  {
    if anchored.None? {
      var b := EncodeReference(anchored);
      assert Le(0, 8) == Zeros(8) by { LeZero(8); }
      assert b[..56] == Zeros(56) && b[..8] == Zeros(8) && b[56..] == Le(BASE, 8);
    } else {
      hide Le;
    }
  }

  lemma {:induction false} LeZero(n: nat)
    ensures Le(0, n) == Zeros(n)
  {
    if n > 0 {
      LeZero(n - 1);
      assert Zeros(n) == [0] + Zeros(n - 1);
    }
  }

  lemma FieldParts(a: Anchor)
    requires |a.repo| == 16
    ensures var b := AnchorFields(a);
            b[..8] == FORKFS && b[8..12] == Le(0, 4) && b[12..16] == Le(ANCHOR, 4) && b[16..32] == a.repo &&
            b[32..40] == Le(a.generation, 8) && b[40..56] == Zeros(16) && b[56..64] == Le(SPAN, 8) &&
            b[64..128] == EncodeReference(a.anchored) && b[136..] == Zeros(3956)
  {
    hide Le, EncodeReference;
  }

  lemma ZeroNumbers()
    ensures Num(Zeros(2)) == 0 && Num(Zeros(8)) == 0
  {
    LeZero(2);
    LeZero(8);
    FitsU16(0);
    FitsU64(0);
  }

  /** What an encoded anchor reads as, part by part. */
  lemma EncodedParts(d: Digest, a: Anchor)
    requires AnchorFits(a)
    ensures var b := EncodeAnchor(d, a);
            b[..4092] == AnchorFields(a) && Num(b[4092..]) == d.crc(AnchorFields(a)) &&
            b[..8] == FORKFS && b[8..12] == Le(0, 4) && b[12..16] == Le(ANCHOR, 4) && b[16..32] == a.repo &&
            b[32..40] == Le(a.generation, 8) && b[40..56] == Zeros(16) && b[56..64] == Le(SPAN, 8) &&
            b[64..128] == EncodeReference(a.anchored) && b[136..4092] == Zeros(3956)
  {
    hide Le, EncodeReference, AnchorFields, Num, Fits;
    var b, f := EncodeAnchor(d, a), AnchorFields(a);
    FieldParts(a);
    FitsU32(d.crc(f));
    PrefixParts(b, f);
  }

  lemma PrefixParts(b: Bytes, f: Bytes)
    requires |f| == 4092 && |b| == 4096 && b[..4092] == f
    ensures b[..8] == f[..8] && b[8..12] == f[8..12] && b[12..16] == f[12..16] && b[16..32] == f[16..32]
    ensures b[32..40] == f[32..40]
    ensures b[40..56] == f[40..56] && b[56..64] == f[56..64] && b[64..128] == f[64..128] && b[136..4092] == f[136..]
  {
    SliceOfSlice(b, 0, 4092, 136, 4092);
    SliceOfSlice(b, 0, 4092, 64, 128);
  }

  lemma ReadReference(d: Digest, a: Anchor)
    requires AnchorFits(a)
    ensures var b := EncodeAnchor(d, a);
            match a.anchored
            case None => Num(b[64..72]) == 0 && AllZero(b[64..120]) && Num(b[120..128]) == BASE
            case Some(c) => Num(b[64..72]) == BASE + c.at && Num(b[72..80]) == c.length && Num(b[80..88]) == c.txn &&
                            b[88..120] == c.hash && Num(b[120..128]) == BASE + c.start
  {
    hide Le, EncodeReference, EncodeAnchor, AnchorFields, Num, Fits;
    var b, r := EncodeAnchor(d, a), EncodeReference(a.anchored);
    EncodedParts(d, a);
    ReferenceParts(a.anchored);
    SliceOfSlice(b, 64, 128, 0, 8);
    SliceOfSlice(b, 64, 128, 8, 16);
    SliceOfSlice(b, 64, 128, 16, 24);
    SliceOfSlice(b, 64, 128, 24, 56);
    SliceOfSlice(b, 64, 128, 56, 64);
    SliceOfSlice(b, 64, 128, 0, 56);
    match a.anchored {
      case None =>
        FitsU64(0);
        FitsU64(BASE);
      case Some(c) =>
        FitsU64(BASE + c.at);
        FitsU64(c.length);
        FitsU64(c.txn);
        FitsU64(BASE + c.start);
    }
  }

  /** An encoded anchor is accepted, with its own generation and identity. */
  lemma ReadAnchor(d: Digest, a: Anchor)
    requires AnchorFits(a)
    ensures var b := EncodeAnchor(d, a);
            ValidAnchor(d, b) && Supported(b) && Generation(b) == a.generation && b[16..32] == a.repo
  {
    hide Le, EncodeReference, EncodeAnchor, AnchorFields, Num, Fits;
    var b := EncodeAnchor(d, a);
    EncodedParts(d, a);
    ReadReference(d, a);
    LeZero(4);
    ZeroNumbers();
    SliceOfSlice(b, 8, 12, 0, 2);
    SliceOfSlice(b, 8, 12, 2, 4);
    SliceOfSlice(b, 40, 56, 0, 8);
    SliceOfSlice(b, 40, 56, 8, 16);
    assert b[8..10] == Zeros(2) && b[10..12] == Zeros(2) && b[40..48] == Zeros(8) && b[48..56] == Zeros(8);
    FitsU32(ANCHOR);
    FitsU64(SPAN);
    FitsU64(a.generation);
  }

  // ---- A good container file ----

  /** The anchor's checkpoint, if any, lies whole inside the committed log. */
  ghost predicate AnchorGood(d: Digest, body: Bytes, mem: Mem, a: Anchor) {
    AnchorFits(a) &&
    (a.anchored.Some? ==>
      a.anchored.value.start <= mem.end && exists m :: Published(d, a.repo, body, a.anchored.value, m))
  }

  ghost predicate OtherGood(d: Digest, body: Bytes, mem: Mem, current: Anchor, second: bool, other: Bytes) {
    |other| == ANCHOR &&
    (ValidAnchor(d, other) ==>
       exists o: Anchor :: AnchorGood(d, body, mem, o) && other == EncodeAnchor(d, o) && o.repo == current.repo &&
                           (o.generation < current.generation || (o == current && !second)))
  }

  ghost predicate FileGood(d: Digest, disk: Disk, mem: Mem, current: Anchor, second: bool) {
    AnchorGood(d, disk.body, mem, current) && Good(d, current.repo, disk.body, mem) &&
    (if second then disk.b else disk.a) == EncodeAnchor(d, current) &&
    OtherGood(d, disk.body, mem, current, second, if second then disk.a else disk.b)
  }

  /** Recovery goes by the current anchor. */
  lemma CurrentChosen(d: Digest, disk: Disk, mem: Mem, current: Anchor, second: bool)
    requires FileGood(d, disk, mem, current, second)
    ensures |disk.a| == ANCHOR && |disk.b| == ANCHOR
    ensures Choose(d, disk.a, disk.b) == Chosen(EncodeAnchor(d, current), second)
  {
    hide Good, EncodeAnchor, ValidAnchor, Supported, Generation, Published;
    ReadAnchor(d, current);
    var other := if second then disk.a else disk.b;
    if ValidAnchor(d, other) {
      var o: Anchor :| AnchorGood(d, disk.body, mem, o) && other == EncodeAnchor(d, o) && o.repo == current.repo &&
                       (o.generation < current.generation || (o == current && !second));
      ReadAnchor(d, o);
    }
  }

  /** Opening a good container never fails and reports exactly its committed state. */
  lemma OpenGood(d: Digest, disk: Disk, mem: Mem, current: Anchor, second: bool)
    requires FileGood(d, disk, mem, current, second)
    ensures |disk.a| == ANCHOR && |disk.b| == ANCHOR && Open(d, disk) == Opened(current.repo, mem)
  {
    hide Good, EncodeAnchor, ValidAnchor, Supported, Generation, Published, Choose, Num, Recover, Run, OtherGood;
    CurrentChosen(d, disk, mem, current, second);
    ReadAnchor(d, current);
    ReadReference(d, current);
    match current.anchored {
      case None =>
        RecoverFull(d, current.repo, disk.body, mem);
      case Some(c) =>
        var m :| Published(d, current.repo, disk.body, c, m);
        RecoverAnchored(d, current.repo, disk.body, mem, c, m);
    }
  }

  lemma RecoverFull(d: Digest, repo: Bytes, body: Bytes, mem: Mem)
    requires |repo| == 16 && Good(d, repo, body, mem)
    ensures Recover(d, repo, body, None) == Some(mem)
  {
    hide Good, Run;
    FullReplay(d, repo, body, mem);
  }
}
