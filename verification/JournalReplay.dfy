/** Recovery as a phase machine over the journal body (daemon/journal.cpp). */
module JournalReplay {
  import opened Bytes
  import opened JournalCodec

  datatype Location = Location(at: nat, length: nat)

  /** What a journal knows after its last committed transaction. */
  datatype Mem = Mem(txn: nat, end: nat, chain: Hash, roots: map<Bytes, Hash>, objects: map<Hash, Location>)

  const EMPTY: Mem := Mem(0, 0, NO_HASH, map[], map[])

  /** The replay cursor; its constructor is the source's `phase`. */
  datatype Cursor =
    | Idle(at: nat, mem: Mem)
    | Data(at: nat, mem: Mem, begin: nat, pending: map<Hash, Location>, batch: Bytes)
    | Prepared(at: nat, mem: Mem, begin: nat, pending: map<Hash, Location>, batch: Bytes,
               changes: Changes, prepareAt: nat, prepare: Bytes)

  datatype Step = Reject | Stop | Next(cursor: Cursor)

  // ---- Prepare records ----

  /** The entries of a batch prepare from byte `at` on; keys must be sorted and
      every operation must be possible on the state before the batch. */
  function ParseEntries(p: Bytes, at: nat, count: nat, previous: Option<Bytes>, mem: Mem,
                        known: set<Hash>, acc: Changes): Option<(nat, Changes)>
    decreases count
  {
    if count == 0 then Some((at, acc))
    else if at > |p| || |p| - at < 8 then None
    else
      var op := Num(p[at..at + 4]);
      var n := Num(p[at + 4..at + 8]);
      if !((op == 1 || op == 2) && 0 < n <= 1024 && |p| - (at + 8) >= n + 32) then None
      else
        var key := p[at + 8..at + 8 + n];
        var id: Hash := p[at + 8 + n..at + 40 + n];
        if previous.Some? && !Less(previous.value, key) then None
        else if op == 1 && id !in known then None
        else if op == 2 && !(id == NO_HASH && key in mem.roots) then None
        else ParseEntries(p, at + 40 + n, count - 1, Some(key), mem, known,
                          acc[key := if op == 1 then Some(id) else None])
  }

  /** The new objects a change list names. */
  function Referenced(changes: Changes, pending: set<Hash>): set<Hash> {
    set k | k in changes && changes[k].Some? && changes[k].value in pending :: changes[k].value
  }

  function DecodePrepare(kind: nat, p: Bytes, mem: Mem, pending: set<Hash>): Option<Changes> {
    if |p| < 36 || p[..32] != mem.chain then None
    else if kind == PREPARE_ONE then
      var n := Num(p[32..36]);
      if !(0 < n <= 1024 && |p| == 68 + n && |pending| == 1) then None
      else
        var id: Hash := p[36 + n..68 + n];
        if id in pending then Some(map[p[36..36 + n] := Some(id)]) else None
    else if |p| < 44 || Num(p[32..40]) != mem.txn then None
    else
      var count := Num(p[40..44]);
      var known := pending + if kind == PREPARE_REFERENCES then mem.objects.Keys else {};
      if !(0 < count <= 64) then None
      else
        match ParseEntries(p, 44, count, None, mem, known, map[])
        case None => None
        case Some((at, changes)) =>
          if at == |p| && |Referenced(changes, pending)| == |pending| then Some(changes) else None
  }

  // ---- One record ----

  function BeginOf(c: Cursor): nat { if c.Idle? then c.at else c.begin }

  function PendingOf(c: Cursor): map<Hash, Location> { if c.Idle? then map[] else c.pending }

  function BatchOf(c: Cursor): Bytes { if c.Idle? then [] else c.batch }

  function AcceptData(d: Digest, c: Cursor, r: Rec, encoded: Bytes): Step {
    var pending := PendingOf(c);
    var batch := BatchOf(c) + encoded;
    if !(4 <= |r.payload| <= MAX_PAYLOAD + 4 && Num(r.payload[..2]) == 4 && Num(r.payload[2..4]) == 0) then Reject
    else if ObjectHash(d, r.payload[4..]) != r.oid then Reject
    else if !(|pending| < 64 && r.oid !in pending) then Reject
    else if |batch| > MAX_BATCH then Reject
    else Next(Data(c.at + |encoded|, c.mem, BeginOf(c), pending[r.oid := Location(c.at, |encoded|)], batch))
  }

  function AcceptPrepare(c: Cursor, r: Rec, encoded: Bytes): Step {
    var batch := BatchOf(c) + encoded;
    if r.oid != NO_HASH then Reject
    else
      match DecodePrepare(r.kind, r.payload, c.mem, PendingOf(c).Keys)
      case None => Reject
      case Some(changes) =>
        if |batch| > MAX_BATCH then Reject
        else Next(Prepared(c.at + |encoded|, c.mem, BeginOf(c), PendingOf(c), batch, changes, c.at, r.payload))
  }

  /** The commit payload that seals a batch; recovery accepts no other. */
  function CommitPayload(d: Digest, mem: Mem, begin: nat, batch: Bytes, prepareAt: nat, prepare: Bytes): (p: Bytes)
    ensures |p| == 136
  {
    Le(mem.txn + 1, 8) + mem.chain + Le(BASE + prepareAt, 8) + Le(RecordLength(|prepare|), 4) + Le(0, 4) +
    d.sha(prepare) + Le(BASE + begin, 8) + Le(BASE + begin + |batch|, 8) + d.sha(batch)
  }

  function Committed(d: Digest, mem: Mem, pending: map<Hash, Location>, changes: Changes,
                     payload: Bytes, end: nat): Mem {
    Mem(mem.txn + 1, end, CommitHash(d, payload), ApplyChanges(mem.roots, changes), mem.objects + pending)
  }

  function AcceptCommit(d: Digest, c: Cursor, r: Rec, encoded: Bytes): Step {
    if !(c.Prepared? && r.kind == COMMIT && r.oid == NO_HASH && |r.payload| == 136) then Reject
    else
      var p := r.payload;
      if !(Num(p[..8]) == r.txn && p[8..40] == c.mem.chain) then Reject
      else if Num(p[40..48]) != BASE + c.prepareAt then Reject
      else if Num(p[48..52]) != RecordLength(|c.prepare|) || Num(p[52..56]) != 0 then Reject
      else if !(p[56..88] == d.sha(c.prepare) && Num(p[88..96]) == BASE + c.begin &&
                Num(p[96..104]) == BASE + c.at && p[104..136] == d.sha(c.batch)) then Reject
      else if |c.batch| > MAX_BATCH then Reject
      else Next(Idle(c.at + |encoded|, Committed(d, c.mem, c.pending, c.changes, p, c.at + |encoded|)))
  }

  /** An unanchored checkpoint is a physical hint that must agree with the state. */
  predicate HintAgrees(mem: Mem, r: Rec) {
    r.txn == mem.txn && r.oid == NO_HASH && |r.payload| >= 48 &&
    Num(r.payload[..8]) == mem.txn && r.payload[8..40] == mem.chain
  }

  function Accept(d: Digest, c: Cursor, r: Rec, encoded: Bytes): (s: Step)
    ensures s.Next? ==> s.cursor.at == c.at + |encoded|
  {
    if c.Idle? && r.kind == CHECKPOINT then
      if HintAgrees(c.mem, r) then Next(Idle(c.at + |encoded|, c.mem.(end := c.at + |encoded|))) else Reject
    else if c.mem.txn == U64 - 1 || r.txn != c.mem.txn + 1 then Reject
    else if !c.Prepared? && r.kind == DATA then AcceptData(d, c, r, encoded)
    else if !c.Prepared? && r.kind in {PREPARE_ONE, PREPARE_VALUES, PREPARE_REFERENCES}
    then AcceptPrepare(c, r, encoded)
    else AcceptCommit(d, c, r, encoded)
  }

  // ---- The loop ----

  function Min(a: nat, b: nat): nat { if a < b then a else b }

  function StepAt(d: Digest, repo: Bytes, body: Bytes, c: Cursor): (s: Step)
    requires |repo| == 16 && c.at < |body|
    ensures s.Next? ==> c.at < s.cursor.at <= |body|
  {
    var at := c.at;
    var left := |body| - at;
    if Offset(at) == 0 then
      if !c.Idle? then Reject
      else if left < HEADER then Stop
      else if body[at..at + HEADER] != SegmentHeader(d, repo, Segment(at)) then Reject
      else Next(Idle(at + HEADER, c.mem))
    else if AllZero(body[at..at + Min(4, left)]) then
      var pad := Min(SPAN - Offset(at), left);
      if !c.Idle? || !AllZero(body[at..at + pad]) then Reject
      else Next(Idle(at + pad, c.mem))
    else
      match ReadRecord(d, body, at, |body|)
      case Bad => Reject
      case Torn => Stop
      case Got(r, len) => Accept(d, c, r, body[at..at + len])
  }

  /** Runs the machine from a cursor; None is a rejected file. */
  function Run(d: Digest, repo: Bytes, body: Bytes, c: Cursor): Option<Cursor>
    requires |repo| == 16 && c.at <= |body|
    decreases |body| - c.at
  {
    if c.at == |body| then Some(c)
    else
      match StepAt(d, repo, body, c)
      case Reject => None
      case Stop => Some(c)
      case Next(c') => Run(d, repo, body, c')
  }
}
