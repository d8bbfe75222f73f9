/** Every run of a container: commits and checkpoints that complete or are cut off
    at any byte, crashes, and reopenings. */
module ContainerRuns {
  import opened Bytes
  import opened JournalCodec
  import opened JournalReplay
  import opened JournalLog
  import opened JournalTx
  import opened JournalWriter
  import opened JournalStore
  import opened JournalCheckpoint
  import opened ContainerFile

  /** A running process remembers the journal state and the anchor it went by. */
  datatype Process = Down | Up(mem: Mem, anchor: Bytes, second: bool)

  /** `committed` is history: the last transaction whose commit record survived whole. */
  datatype System = System(disk: Disk, process: Process, committed: Mem)

  /** How far a checkpoint got: some bytes of the record, the record but no anchor
      write, some bytes of the anchor, or all of it. */
  datatype Outcome = RecordTorn(written: nat) | RecordOnly | AnchorTorn(written: nat) | Complete

  datatype Event =
    | Put(key: Bytes, value: Bytes, written: nat)
    | Transact(expected: nat, mutations: seq<Mutation>, written: nat)
    | TakeCheckpoint(outcome: Outcome)
    | Crash
    | Start

  // ---- The steps ----

  /** The uncommitted tail is cut off, then `written` bytes of the append reach the disk;
      the writer that did not finish is gone or poisoned. */
  ghost function Commit(d: Digest, s: System, repo: Bytes, values: seq<Bytes>, kind: nat, prepare: Bytes,
                        changes: Changes, written: nat): System
    requires |repo| == 16 && s.process.Up? && s.process.mem.end <= |s.disk.body|
  {
    var mem := s.process.mem;
    var whole := Appended(d, repo, s.disk.body, mem, TxRecs(d, mem, values, kind, prepare));
    if mem.end + written >= |whole| then
      var next := TxMem(d, mem, values, kind, prepare, changes);
      s.(disk := s.disk.(body := whole), process := s.process.(mem := next), committed := next)
    else
      s.(disk := s.disk.(body := whole[..mem.end + written]), process := Down)
  }

  /** The next anchor: the old bytes with generation, checkpoint and checksum replaced. */
  function Republish(d: Digest, anchor: Bytes, c: Checkpoint): (b: Bytes)
    requires |anchor| == ANCHOR
    ensures |b| == ANCHOR
  {
    var fields := anchor[..32] + Le(Generation(anchor) + 1, 8) + anchor[40..64] + EncodeReference(Some(c)) +
      anchor[128..4092];
    fields + Le(d.crc(fields), 4)
  }

  function WithSlot(disk: Disk, second: bool, bytes: Bytes): Disk {
    if second then disk.(b := bytes) else disk.(a := bytes)
  }

  function Slot(disk: Disk, second: bool): Bytes {
    if second then disk.b else disk.a
  }

  /** A torn anchor: a prefix of the new bytes over the old ones. */
  function Torn(before: Bytes, next: Bytes, written: nat): (torn: Bytes)
    requires |before| == ANCHOR && |next| == ANCHOR
    ensures |torn| == ANCHOR
  {
    if written <= ANCHOR then next[..written] + before[written..] else next
  }

  /** Its checksum exposes it, unless it equals one of the two. */
  predicate TearDetected(d: Digest, before: Bytes, next: Bytes, written: nat)
    requires |before| == ANCHOR && |next| == ANCHOR
  {
    ValidAnchor(d, Torn(before, next, written)) ==>
      Torn(before, next, written) == before || Torn(before, next, written) == next
  }

  ghost function Checkpointed(d: Digest, s: System, repo: Bytes, outcome: Outcome): (s': System)
    requires |repo| == 16 && s.process.Up? && s.process.mem.end <= |s.disk.body|
    requires |s.process.anchor| == ANCHOR && |s.disk.a| == ANCHOR && |s.disk.b| == ANCHOR
    ensures |s'.disk.a| == ANCHOR && |s'.disk.b| == ANCHOR
  {
    var mem, c := s.process.mem, CheckpointAt(d, s.process.mem);
    var whole := Appended(d, repo, s.disk.body, mem, [CheckpointRec(mem)]);
    var recorded := s.(disk := s.disk.(body := whole), committed := mem.(end := c.start));
    var target := !s.process.second;
    var before, next := Slot(s.disk, target), Republish(d, s.process.anchor, c);
    match outcome
    case RecordTorn(written) =>
      if mem.end + written < |whole| then s.(disk := s.disk.(body := whole[..mem.end + written]), process := Down)
      else recorded.(process := Down)
    case RecordOnly => recorded.(process := Down)
    case AnchorTorn(written) =>
      recorded.(disk := WithSlot(recorded.disk, target, Torn(before, next, written)), process := Down)
    case Complete =>
      recorded.(disk := WithSlot(recorded.disk, target, next), process := Up(mem.(end := c.start), next, target))
  }

  ghost function Started(d: Digest, s: System): System
    requires |s.disk.a| == ANCHOR && |s.disk.b| == ANCHOR
  {
    match Open(d, s.disk)
    case Rejected => s
    case Opened(_, mem) =>
      var chosen := Choose(d, s.disk.a, s.disk.b);
      if chosen.Refused? then s else s.(process := Up(mem, chosen.bytes, chosen.second))
  }

  /** One event; an event that is not enabled leaves the system alone. */
  ghost function Next(d: Digest, repo: Bytes, s: System, e: Event): (s': System)
    requires |repo| == 16 && |s.disk.a| == ANCHOR && |s.disk.b| == ANCHOR
    ensures |s'.disk.a| == ANCHOR && |s'.disk.b| == ANCHOR
  {
    if e.Crash? then s.(process := Down)
    else if e.Start? then (if s.process.Down? then Started(d, s) else s)
    else if s.process.Down? || s.process.mem.end > |s.disk.body| then s
    else
      var mem := s.process.mem;
      match e
      case Put(key, value, written) =>
        if PutEnabled(d, mem, key, value)
        then Commit(d, s, repo, [value], PREPARE_ONE, PutPrepare(d, mem, key, value),
                    map[key := Some(ObjectHash(d, value))], written)
        else s
      case Transact(expected, muts, written) =>
        if TransactEnabled(d, s.disk.body, mem, expected, muts) then
          GatherAccepts(d, s.disk.body, mem, muts);
          var g := GatherAll(d, s.disk.body, mem, muts).value;
          Commit(d, s, repo, ValueList(g.values), KindOf(g), BatchPrepare(mem, g.changes), g.changes, written)
        else s
      case TakeCheckpoint(outcome) =>
        if CheckpointEnabled(d, s) then Checkpointed(d, s, repo, outcome) else s
  }

  ghost predicate CheckpointEnabled(d: Digest, s: System) {
    s.process.Up? && |s.process.anchor| == ANCHOR && Generation(s.process.anchor) + 1 < U64 &&
    CheckpointOk(d, s.process.mem)
  }

  /** If the event tears an anchor, the checksum tells. */
  ghost predicate Exposed(d: Digest, s: System, e: Event)
    requires |s.disk.a| == ANCHOR && |s.disk.b| == ANCHOR
  {
    e.TakeCheckpoint? && e.outcome.AnchorTorn? && CheckpointEnabled(d, s) ==>
      TearDetected(d, Slot(s.disk, !s.process.second),
                   Republish(d, s.process.anchor, CheckpointAt(d, s.process.mem)), e.outcome.written)
  }

  // ---- The invariant ----

  ghost predicate Agrees(d: Digest, s: System, current: Anchor, second: bool)
    requires |current.repo| == 16
  {
    s.process.Up? ==>
      s.process.mem == s.committed && s.process.anchor == EncodeAnchor(d, current) && s.process.second == second
  }

  ghost predicate Inv(d: Digest, repo: Bytes, s: System) {
    |repo| == 16 && |s.disk.a| == ANCHOR && |s.disk.b| == ANCHOR &&
    exists current: Anchor, second: bool ::
      current.repo == repo && FileGood(d, s.disk, s.committed, current, second) && Agrees(d, s, current, second)
  }

  lemma InvIntro(d: Digest, repo: Bytes, s: System, current: Anchor, second: bool)
    requires |repo| == 16 && current.repo == repo && |s.disk.a| == ANCHOR && |s.disk.b| == ANCHOR
    requires FileGood(d, s.disk, s.committed, current, second) && Agrees(d, s, current, second)
    ensures Inv(d, repo, s)
  {
  }

  lemma AnchorKept(d: Digest, body: Bytes, mem: Mem, a: Anchor, body': Bytes, mem': Mem)
    requires AnchorGood(d, body, mem, a) && mem.end <= |body| && mem.end <= |body'|
    requires body[..mem.end] == body'[..mem.end]
    requires mem.end <= mem'.end
    ensures AnchorGood(d, body', mem', a)
  {
    hide Published;
    if a.anchored.Some? {
      var c := a.anchored.value;
      var m :| Published(d, a.repo, body, c, m);
      assert body[..c.start] == body[..mem.end][..c.start];
      assert body'[..c.start] == body'[..mem.end][..c.start];
      PublishedLocal(d, a.repo, body, body', c, m);
    }
  }

  lemma OtherKept(d: Digest, body: Bytes, mem: Mem, current: Anchor, second: bool, other: Bytes, body': Bytes,
                  mem': Mem)
    requires OtherGood(d, body, mem, current, second, other)
    requires mem.end <= |body| && mem.end <= |body'| && body[..mem.end] == body'[..mem.end] && mem.end <= mem'.end
    ensures OtherGood(d, body', mem', current, second, other)
  {
    hide Published, EncodeAnchor, ValidAnchor;
    if ValidAnchor(d, other) {
      var o: Anchor :| AnchorGood(d, body, mem, o) && other == EncodeAnchor(d, o) && o.repo == current.repo &&
                       (o.generation < current.generation || (o == current && !second));
      AnchorKept(d, body, mem, o, body', mem');
    }
  }

  /** Rewriting the file past the committed end keeps both anchors good. */
  lemma BodyReplaced(d: Digest, disk: Disk, mem: Mem, current: Anchor, second: bool, body': Bytes, mem': Mem)
    requires FileGood(d, disk, mem, current, second) && mem.end <= |disk.body|
    requires mem.end <= |body'| && disk.body[..mem.end] == body'[..mem.end] && mem.end <= mem'.end
    requires Good(d, current.repo, body', mem')
    ensures FileGood(d, disk.(body := body'), mem', current, second)
  {
    hide AnchorGood, OtherGood, Good, EncodeAnchor;
    AnchorKept(d, disk.body, mem, current, body', mem');
    OtherKept(d, disk.body, mem, current, second, Slot(disk, !second), body', mem');
  }

  lemma FileParts(d: Digest, disk: Disk, mem: Mem, current: Anchor, second: bool)
    requires FileGood(d, disk, mem, current, second)
    ensures AnchorGood(d, disk.body, mem, current) && AnchorFits(current) && |current.repo| == 16
    ensures Sealed(d, current.repo, disk.body, mem) && mem.end <= |disk.body|
  {
    hide OtherGood, EncodeAnchor, Resumes, Headers, Indexed, Rooted, TailIgnored, Published;
  }

  // ---- Commits ----

  lemma CommitKeeps(d: Digest, repo: Bytes, s: System, current: Anchor, second: bool, values: seq<Bytes>, kind: nat,
                    prepare: Bytes, changes: Changes, written: nat)
    requires |repo| == 16 && current.repo == repo && |s.disk.a| == ANCHOR && |s.disk.b| == ANCHOR
    requires FileGood(d, s.disk, s.committed, current, second) && Agrees(d, s, current, second)
    requires s.process.Up? && s.process.mem.end <= |s.disk.body|
    requires TxOk(d, s.process.mem, values, kind, prepare, changes)
    ensures Inv(d, repo, Commit(d, s, repo, values, kind, prepare, changes, written))
  {
    hide FileGood, Good, Sealed, TxOk, TxRecs, TxMem, Appended, EncodeAll, Begin, Quiet, Fold, Inv, Append, BatchBegin;
    var mem, body := s.process.mem, s.disk.body;
    var recs := TxRecs(d, mem, values, kind, prepare);
    var whole := Appended(d, repo, body, mem, recs);
    FileParts(d, s.disk, mem, current, second);
    TxFacts(d, mem, values, kind, prepare, changes);
    AppendedSlice(d, repo, body, mem, recs);
    var s' := Commit(d, s, repo, values, kind, prepare, changes, written);
    if mem.end + written >= |whole| {
      CommitGood(d, repo, body, mem, values, kind, prepare, changes);
      BodyReplaced(d, s.disk, mem, current, second, whole, TxMem(d, mem, values, kind, prepare, changes));
    } else {
      TxFold(d, mem, values, kind, prepare, changes);
      var torn := whole[..mem.end + written];
      TornGood(d, repo, body, mem, recs, torn);
      assert torn[..mem.end] == whole[..mem.end];
      BodyReplaced(d, s.disk, mem, current, second, torn, mem);
    }
    InvIntro(d, repo, s', current, second);
  }

  lemma CommitPublishes(d: Digest, s: System, repo: Bytes, values: seq<Bytes>, kind: nat, prepare: Bytes,
                        changes: Changes, written: nat)
    requires |repo| == 16 && s.process.Up? && s.process.mem.end <= |s.disk.body|
    requires var mem := s.process.mem;
      written >= |Appended(d, repo, s.disk.body, mem, TxRecs(d, mem, values, kind, prepare))|
    ensures var s', mem := Commit(d, s, repo, values, kind, prepare, changes, written), s.process.mem;
      s'.process.Up? && s'.process.mem == s'.committed && s'.committed.txn == mem.txn + 1 &&
      s'.committed.roots == ApplyChanges(mem.roots, changes)
  {
    hide EncodeAll, Places, BatchBegin, ApplyChanges, Appended, TxRecs, Batch, Seal;
  }

  /** A put that is accepted and written far enough is committed, and the process goes on. */
  lemma PutCommits(d: Digest, repo: Bytes, s: System, key: Bytes, value: Bytes) returns (n: nat)
    requires Inv(d, repo, s) && s.process.Up? && PutEnabled(d, s.committed, key, value)
    ensures forall written: nat :: written >= n ==>
      var s' := Next(d, repo, s, Put(key, value, written));
      s'.process.Up? && s'.process.mem == s'.committed && s'.committed.txn == s.committed.txn + 1 &&
      s'.committed.roots == s.committed.roots[key := ObjectHash(d, value)]
  {
    hide FileGood, Commit, TxOk, EncodeAnchor, PutPrepare, ObjectHash, PutEnabled, Appended, TxRecs, ApplyChanges;
    var mem := s.process.mem;
    var prepare, changes := PutPrepare(d, mem, key, value), map[key := Some(ObjectHash(d, value))];
    InvEnds(d, repo, s);
    n := |Appended(d, repo, s.disk.body, mem, TxRecs(d, mem, [value], PREPARE_ONE, prepare))|;
    assert ApplyChanges(mem.roots, changes) == mem.roots[key := ObjectHash(d, value)];
    forall written: nat | written >= n
      ensures var s' := Next(d, repo, s, Put(key, value, written));
        s'.process.Up? && s'.process.mem == s'.committed && s'.committed.txn == s.committed.txn + 1 &&
        s'.committed.roots == s.committed.roots[key := ObjectHash(d, value)]
    {
      CommitPublishes(d, s, repo, [value], PREPARE_ONE, prepare, changes, written);
    }
  }

  /** So is a batch. */
  lemma BatchCommits(d: Digest, repo: Bytes, s: System, muts: seq<Mutation>) returns (n: nat)
    requires Inv(d, repo, s) && s.process.Up? && TransactEnabled(d, s.disk.body, s.committed, s.committed.txn, muts)
    ensures forall written: nat :: written >= n ==>
      var s' := Next(d, repo, s, Transact(s.committed.txn, muts, written));
      s'.process.Up? && s'.process.mem == s'.committed && s'.committed.txn == s.committed.txn + 1 &&
      Applied(d, muts, s.committed.roots, s'.committed.roots)
  {
    hide FileGood, Commit, TxOk, EncodeAnchor, ObjectHash, TransactEnabled, Appended, TxRecs, ApplyChanges, GatherAll,
         ValueList, BatchPrepare, Applied, Meant, OnceEach;
    var mem := s.process.mem;
    InvEnds(d, repo, s);
    TransactReady(d, s.disk.body, mem, mem.txn, muts);
    var g := GatherAll(d, s.disk.body, mem, muts).value;
    var values, prepare := ValueList(g.values), BatchPrepare(mem, g.changes);
    GatherMeaning(d, s.disk.body, mem, muts);
    MeantApplied(d, muts, g.changes, mem.roots);
    n := |Appended(d, repo, s.disk.body, mem, TxRecs(d, mem, values, KindOf(g), prepare))|;
    forall written: nat | written >= n
      ensures var s' := Next(d, repo, s, Transact(s.committed.txn, muts, written));
        s'.process.Up? && s'.process.mem == s'.committed && s'.committed.txn == s.committed.txn + 1 &&
        Applied(d, muts, s.committed.roots, s'.committed.roots)
    {
      CommitPublishes(d, s, repo, values, KindOf(g), prepare, g.changes, written);
    }
  }

  lemma InvEnds(d: Digest, repo: Bytes, s: System)
    requires Inv(d, repo, s) && s.process.Up?
    ensures s.process.mem == s.committed && s.committed.end <= |s.disk.body|
  {
    hide FileGood, EncodeAnchor;
    var current: Anchor, second: bool :|
      current.repo == repo && FileGood(d, s.disk, s.committed, current, second) && Agrees(d, s, current, second);
    FileParts(d, s.disk, s.committed, current, second);
  }

  // ---- Checkpoints ----

  lemma RepublishedBytes(d: Digest, a: Anchor, c: Checkpoint)
    requires AnchorFits(a)
    ensures Republish(d, EncodeAnchor(d, a), c) ==
      EncodeAnchor(d, a.(generation := a.generation + 1, anchored := Some(c)))
  {
    hide Le, EncodeReference, Num, Fits, Generation;
    var b := EncodeAnchor(d, a);
    ReadAnchor(d, a);
    var f := AnchorFields(a);
    assert b[..32] == f[..32] && b[40..64] == f[40..64] && b[128..4092] == f[128..];
    var a' := a.(generation := a.generation + 1, anchored := Some(c));
    assert b[..32] + Le(a.generation + 1, 8) + b[40..64] + EncodeReference(Some(c)) + b[128..4092] == AnchorFields(a');
  }

  /** Writing the new anchor over the other slot makes it the current one. */
  lemma AnchorWritten(d: Digest, disk: Disk, mem: Mem, current: Anchor, second: bool, c: Checkpoint, m: Mem)
    requires FileGood(d, disk, mem, current, second) && current.generation + 1 < U64
    requires Published(d, current.repo, disk.body, c, m) && c.start <= mem.end
    requires BASE + c.start < U64
    ensures var next := current.(generation := current.generation + 1, anchored := Some(c));
            AnchorFits(next) && FileGood(d, WithSlot(disk, !second, EncodeAnchor(d, next)), mem, next, !second)
  {
    hide Good, Published, EncodeAnchor, ValidAnchor, Num;
    var next := current.(generation := current.generation + 1, anchored := Some(c));
    PublishedNumbers(d, current.repo, disk.body, c, m);
    assert AnchorGood(d, disk.body, mem, next);
    assert AnchorGood(d, disk.body, mem, current);
    hide AnchorGood;
    assert OtherGood(d, disk.body, mem, next, !second, EncodeAnchor(d, current));
  }

  lemma PublishedNumbers(d: Digest, repo: Bytes, body: Bytes, c: Checkpoint, m: Mem)
    requires Published(d, repo, body, c, m) && BASE + c.start < U64
    ensures BASE + c.at < U64 && c.length < U64 && c.txn < U64
  {
    hide Encode, Payload, Offset, RecordLength, Resumes, Headers, Indexed, Rooted, Placed;
  }

  /** A torn anchor that its checksum exposes, or that equals the old one, changes nothing. */
  lemma TornAnchorKept(d: Digest, disk: Disk, mem: Mem, current: Anchor, second: bool, torn: Bytes)
    requires FileGood(d, disk, mem, current, second) && |torn| == ANCHOR
    requires ValidAnchor(d, torn) ==> torn == Slot(disk, !second)
    ensures FileGood(d, WithSlot(disk, !second, torn), mem, current, second)
  {
    hide AnchorGood, Good, EncodeAnchor, ValidAnchor;
  }

  lemma RoomForCheckpoint(d: Digest, mem: Mem)
    requires CheckpointOk(d, mem)
    ensures BASE + CheckpointAt(d, mem).start < U64 && mem.end <= CheckpointAt(d, mem).at
  {
    hide Payload;
  }

  lemma CheckpointKeeps(d: Digest, repo: Bytes, s: System, current: Anchor, second: bool, outcome: Outcome)
    requires |repo| == 16 && current.repo == repo && |s.disk.a| == ANCHOR && |s.disk.b| == ANCHOR
    requires FileGood(d, s.disk, s.committed, current, second) && Agrees(d, s, current, second)
    requires s.process.Up? && s.process.mem.end <= |s.disk.body| && |s.process.anchor| == ANCHOR
    requires Generation(s.process.anchor) + 1 < U64 && CheckpointOk(d, s.process.mem)
    requires Exposed(d, s, TakeCheckpoint(outcome))
    ensures Inv(d, repo, Checkpointed(d, s, repo, outcome))
  {
    hide FileGood, Good, Sealed, Appended, CheckpointAt, CheckpointRec, CheckpointOk, Inv, Append, Begin, EncodeAll,
         EncodeAnchor, Generation,
         Republish, Published, AnchorGood, AnchorFits, ValidAnchor, Num;
    var mem, body := s.process.mem, s.disk.body;
    var c := CheckpointAt(d, mem);
    var whole := Appended(d, repo, body, mem, [CheckpointRec(mem)]);
    FileParts(d, s.disk, mem, current, second);
    ReadAnchor(d, current);
    AppendedSlice(d, repo, body, mem, [CheckpointRec(mem)]);
    RoomForCheckpoint(d, mem);
    var s' := Checkpointed(d, s, repo, outcome);
    if outcome.RecordTorn? && mem.end + outcome.written < |whole| {
      var torn := whole[..mem.end + outcome.written];
      CheckpointTornGood(d, repo, body, mem, torn);
      assert torn[..mem.end] == whole[..mem.end];
      BodyReplaced(d, s.disk, mem, current, second, torn, mem);
      InvIntro(d, repo, s', current, second);
    } else {
      CheckpointGood(d, repo, body, mem);
      CheckpointAtParts(d, mem);
      var mem' := mem.(end := c.start);
      var disk := s.disk.(body := whole);
      BodyReplaced(d, s.disk, mem, current, second, whole, mem');
      RepublishedBytes(d, current, c);
      AnchorWritten(d, disk, mem', current, second, c, mem');
      AnchorOutcome(d, repo, s, current, second, outcome, disk, mem', c);
    }
  }

  /** Once the checkpoint record is durable, each way the anchor write can end is safe. */
  lemma AnchorOutcome(d: Digest, repo: Bytes, s: System, current: Anchor, second: bool, outcome: Outcome, disk: Disk,
                      mem': Mem, c: Checkpoint)
    requires |repo| == 16 && current.repo == repo && |s.disk.a| == ANCHOR && |s.disk.b| == ANCHOR
    requires s.process.Up? && s.process.mem.end <= |s.disk.body| && |s.process.anchor| == ANCHOR
    requires s.process.anchor == EncodeAnchor(d, current) && s.process.second == second
    requires c == CheckpointAt(d, s.process.mem) && mem' == s.process.mem.(end := c.start)
    requires disk == s.disk.(body := Appended(d, repo, s.disk.body, s.process.mem, [CheckpointRec(s.process.mem)]))
    requires outcome.RecordTorn? ==> s.process.mem.end + outcome.written >= |disk.body|
    requires FileGood(d, disk, mem', current, second)
    requires var next := current.(generation := current.generation + 1, anchored := Some(c));
             AnchorFits(next) && Republish(d, s.process.anchor, c) == EncodeAnchor(d, next) &&
             FileGood(d, WithSlot(disk, !second, EncodeAnchor(d, next)), mem', next, !second)
    requires outcome.AnchorTorn? ==>
      TearDetected(d, Slot(s.disk, !second), Republish(d, s.process.anchor, c), outcome.written)
    ensures Inv(d, repo, Checkpointed(d, s, repo, outcome))
  {
    hide FileGood, Appended, CheckpointAt, CheckpointRec, Inv, EncodeAnchor, Republish, ValidAnchor;
    var next := current.(generation := current.generation + 1, anchored := Some(c));
    var s' := Checkpointed(d, s, repo, outcome);
    var before, bytes := Slot(s.disk, !second), EncodeAnchor(d, next);
    match outcome {
      case RecordTorn(_) => InvIntro(d, repo, s', current, second);
      case RecordOnly => InvIntro(d, repo, s', current, second);
      case Complete => InvIntro(d, repo, s', next, !second);
      case AnchorTorn(written) =>
        var torn := Torn(before, bytes, written);
        if torn == bytes {
          InvIntro(d, repo, s', next, !second);
        } else {
          TornAnchorKept(d, disk, mem', current, second, torn);
          InvIntro(d, repo, s', current, second);
        }
    }
  }

  // ---- All events, all runs ----

  lemma StartKeeps(d: Digest, repo: Bytes, s: System, current: Anchor, second: bool)
    requires |repo| == 16 && current.repo == repo && |s.disk.a| == ANCHOR && |s.disk.b| == ANCHOR
    requires FileGood(d, s.disk, s.committed, current, second)
    ensures Inv(d, repo, Started(d, s))
    ensures Started(d, s).process.Up? && Started(d, s).process.mem == s.committed
  {
    hide FileGood, Open, Choose, EncodeAnchor, Inv;
    FileParts(d, s.disk, s.committed, current, second);
    OpenGood(d, s.disk, s.committed, current, second);
    CurrentChosen(d, s.disk, s.committed, current, second);
    InvIntro(d, repo, Started(d, s), current, second);
  }

  lemma NextKeeps(d: Digest, repo: Bytes, s: System, e: Event)
    requires Inv(d, repo, s) && Exposed(d, s, e)
    ensures Inv(d, repo, Next(d, repo, s, e))
  {
    hide FileGood, Commit, Checkpointed, Started, PutEnabled, TransactEnabled, TxOk, EncodeAnchor, Generation,
         CheckpointOk, ValueList, BatchPrepare, PutPrepare, GatherAll, ObjectHash;
    var current: Anchor, second: bool :|
      current.repo == repo && FileGood(d, s.disk, s.committed, current, second) && Agrees(d, s, current, second);
    if e.Crash? {
      InvIntro(d, repo, s.(process := Down), current, second);
    } else if e.Start? {
      if s.process.Down? { StartKeeps(d, repo, s, current, second); }
    } else if s.process.Up? && s.process.mem.end <= |s.disk.body| {
      hide Inv;
      var mem := s.process.mem;
      match e {
        case Put(key, value, written) =>
          if PutEnabled(d, mem, key, value) {
            PutReady(d, mem, key, value);
            CommitKeeps(d, repo, s, current, second, [value], PREPARE_ONE, PutPrepare(d, mem, key, value),
                        map[key := Some(ObjectHash(d, value))], written);
          }
        case Transact(expected, muts, written) =>
          if TransactEnabled(d, s.disk.body, mem, expected, muts) {
            TransactReady(d, s.disk.body, mem, expected, muts);
            var g := GatherAll(d, s.disk.body, mem, muts).value;
            CommitKeeps(d, repo, s, current, second, ValueList(g.values), KindOf(g), BatchPrepare(mem, g.changes),
                        g.changes, written);
          }
        case TakeCheckpoint(outcome) =>
          if CheckpointEnabled(d, s) {
            CheckpointKeeps(d, repo, s, current, second, outcome);
          }
        case _ =>
      }
    }
  }

  lemma PutReady(d: Digest, mem: Mem, key: Bytes, value: Bytes)
    requires PutEnabled(d, mem, key, value)
    ensures TxOk(d, mem, [value], PREPARE_ONE, PutPrepare(d, mem, key, value), map[key := Some(ObjectHash(d, value))])
  {
    hide TxOk, PutPrepare, ObjectHash, EncodeAll, Batch, HasRoom;
    PutOk(d, mem, key, value);
  }

  lemma TransactReady(d: Digest, body: Bytes, mem: Mem, expected: nat, muts: seq<Mutation>)
    requires TransactEnabled(d, body, mem, expected, muts)
    ensures GatherAll(d, body, mem, muts).Some?
    ensures var g := GatherAll(d, body, mem, muts).value;
            TxOk(d, mem, ValueList(g.values), KindOf(g), BatchPrepare(mem, g.changes), g.changes)
  {
    hide TxOk, Room, GatherAll, ValueList, BatchPrepare, Acceptable;
    GatherAccepts(d, body, mem, muts);
    TransactOk(d, body, mem, muts);
  }

  ghost function RunAll(d: Digest, repo: Bytes, s: System, events: seq<Event>): (s': System)
    requires |repo| == 16 && |s.disk.a| == ANCHOR && |s.disk.b| == ANCHOR
    ensures |s'.disk.a| == ANCHOR && |s'.disk.b| == ANCHOR
    decreases |events|
  {
    if events == [] then s else RunAll(d, repo, Next(d, repo, s, events[0]), events[1..])
  }

  /** Every anchor the run tears is exposed by its checksum. */
  ghost predicate AllExposed(d: Digest, repo: Bytes, s: System, events: seq<Event>)
    requires |repo| == 16 && |s.disk.a| == ANCHOR && |s.disk.b| == ANCHOR
    decreases |events|
  {
    events == [] || (Exposed(d, s, events[0]) && AllExposed(d, repo, Next(d, repo, s, events[0]), events[1..]))
  }

  lemma {:induction false} RunAllKeeps(d: Digest, repo: Bytes, s: System, events: seq<Event>)
    requires |repo| == 16 && Inv(d, repo, s) && AllExposed(d, repo, s, events)
    ensures Inv(d, repo, RunAll(d, repo, s, events))
    decreases |events|
  {
    hide FileGood, Agrees, Next, Exposed;
    if events != [] {
      NextKeeps(d, repo, s, events[0]);
      RunAllKeeps(d, repo, Next(d, repo, s, events[0]), events[1..]);
    }
  }

  /** A container as `create_legacy` leaves it. */
  function Created(d: Digest, repo: Bytes, time: nat): (s: System)
    requires |repo| == 16
    ensures |s.disk.a| == ANCHOR && |s.disk.b| == ANCHOR
  {
    var a := EncodeAnchor(d, Anchor(repo, 1, None, time));
    System(Disk(a, a, []), Down, EMPTY)
  }

  lemma CreatedInv(d: Digest, repo: Bytes, time: nat)
    requires Sound(d) && |repo| == 16 && !AllZero(repo) && time < U64
    ensures Inv(d, repo, Created(d, repo, time))
  {
    hide Good, EncodeAnchor, ValidAnchor, Published;
    EmptySealed(d, repo);
    InvIntro(d, repo, Created(d, repo, time), Anchor(repo, 1, None, time), false);
  }

  /** Over every run of puts, batches, checkpoints, crashes and restarts, with any
      write cut off at any byte, opening the file never fails and yields exactly the
      roots, object index, sequence and chain of the last transaction whose commit
      record survived whole, as long as every torn anchor fails its checksum. */
  lemma RecoveryOverEveryRun(d: Digest, repo: Bytes, time: nat, events: seq<Event>)
    requires Sound(d) && |repo| == 16 && !AllZero(repo) && time < U64
    requires AllExposed(d, repo, Created(d, repo, time), events)
    ensures var s := RunAll(d, repo, Created(d, repo, time), events); Open(d, s.disk) == Opened(repo, s.committed)
  {
    hide FileGood, Open, Created, AllExposed;
    CreatedInv(d, repo, time);
    RunAllKeeps(d, repo, Created(d, repo, time), events);
    var s := RunAll(d, repo, Created(d, repo, time), events);
    var current: Anchor, second: bool :|
      current.repo == repo && FileGood(d, s.disk, s.committed, current, second) && Agrees(d, s, current, second);
    OpenGood(d, s.disk, s.committed, current, second);
  }
}
