/** What an append writes, and how recovery reads it back, whole or torn. */
module JournalLog {
  import opened Bytes
  import opened JournalCodec
  import opened JournalReplay

  function EncodeAll(d: Digest, recs: seq<Rec>): Bytes {
    if recs == [] then [] else Encode(d, recs[0]) + EncodeAll(d, recs[1..])
  }

  lemma AddAligned(a: nat, b: nat)
    requires a % 8 == 0 && b % 8 == 0
    ensures (a + b) % 8 == 0
  {
  }

  lemma {:induction false} EncodeAllAligned(d: Digest, recs: seq<Rec>)
    ensures |EncodeAll(d, recs)| % 8 == 0
  {
    if recs != [] {
      EncodeAllAligned(d, recs[1..]);
      AddAligned(|Encode(d, recs[0])|, |EncodeAll(d, recs[1..])|);
    }
  }

  lemma SplitWhole(body: Bytes, at: nat, first: Bytes, rest: Bytes)
    requires at + |first| + |rest| <= |body| && body[at..at + |first| + |rest|] == first + rest
    ensures body[at..at + |first|] == first
    ensures body[at + |first|..at + |first| + |rest|] == rest
  {
    var whole := body[at..at + |first| + |rest|];
    assert body[at..at + |first|] == whole[..|first|];
    assert body[at + |first|..at + |first| + |rest|] == whole[|first|..];
  }

  lemma SplitTorn(body: Bytes, at: nat, first: Bytes, rest: Bytes)
    requires at <= |body| < at + |first| + |rest| && body[at..] == (first + rest)[..|body| - at]
    ensures |body| < at + |first| ==> body[at..] == first[..|body| - at]
    ensures at + |first| <= |body| ==> body[at..at + |first|] == first
    ensures at + |first| <= |body| ==> body[at + |first|..] == rest[..|body| - at - |first|]
  {
    if at + |first| <= |body| {
      assert body[at..at + |first|] == body[at..][..|first|];
      assert body[at + |first|..] == body[at..][|first|..];
    }
  }

  /** Inside a segment, offsets add. */
  lemma OffsetAdd(at: nat, n: nat)
    requires Offset(at) + n < SPAN
    ensures Offset(at + n) == Offset(at) + n
  {
    var q := at / SPAN;
    assert at == q * SPAN + Offset(at);
    assert (at + n) / SPAN == q;
  }

  // ---- Where an append goes ----

  predicate NeedsSegment(end: nat, required: nat) {
    Offset(end) == 0 || SPAN - Offset(end) < required
  }

  function SegmentAt(end: nat): (at: nat)
    ensures Offset(at) == 0 && end <= at < end + SPAN
    ensures Offset(end) != 0 ==> at == end + (SPAN - Offset(end)) && (end % 8 == 0 ==> at >= end + 8)
  {
    if Offset(end) == 0 then end else end + (SPAN - Offset(end))
  }

  function Begin(end: nat, required: nat): nat {
    if NeedsSegment(end, required) then SegmentAt(end) + HEADER else end
  }

  /** File offsets are signed 64-bit; an append must leave a whole segment below that. */
  predicate HasRoom(end: nat, required: nat) {
    BASE + (if NeedsSegment(end, required) then SegmentAt(end) else end) <= 0x7fff_ffff_ffff_ffff - SPAN
  }

  /** Zero fill to the segment boundary and the next segment's header, if needed. */
  function Gap(d: Digest, repo: Bytes, end: nat, required: nat): (g: Bytes)
    requires |repo| == 16
    ensures |g| == Begin(end, required) - end
  {
    if NeedsSegment(end, required)
    then Zeros(SegmentAt(end) - end) + SegmentHeader(d, repo, Segment(SegmentAt(end)))
    else []
  }

  function Append(d: Digest, repo: Bytes, end: nat, recs: seq<Rec>): (b: Bytes)
    requires |repo| == 16
    ensures |b| == Begin(end, |EncodeAll(d, recs)|) - end + |EncodeAll(d, recs)|
  {
    Gap(d, repo, end, |EncodeAll(d, recs)|) + EncodeAll(d, recs)
  }

  // ---- Recovery over the gap ----

  lemma RunNext(d: Digest, repo: Bytes, body: Bytes, c: Cursor, c': Cursor)
    requires |repo| == 16 && c.at < |body| && StepAt(d, repo, body, c) == Next(c')
    ensures Run(d, repo, body, c) == Run(d, repo, body, c')
  {
  }

  lemma PadStep(d: Digest, repo: Bytes, body: Bytes, at: nat, mem: Mem, pad: nat)
    requires |repo| == 16 && Offset(at) != 0 && 0 < pad && at + pad <= |body|
    requires pad == Min(SPAN - Offset(at), |body| - at) && AllZero(body[at..at + pad])
    requires pad >= 4 || at + pad == |body|
    ensures StepAt(d, repo, body, Idle(at, mem)) == Next(Idle(at + pad, mem))
  {
    hide ReadRecord, SegmentHeader, Accept, Offset, Segment;
    var n := Min(4, |body| - at);
    ZeroPrefix(body, at, n, pad);
  }

  lemma ZeroPrefix(body: Bytes, at: nat, n: nat, pad: nat)
    requires n <= pad && at + pad <= |body| && AllZero(body[at..at + pad])
    ensures AllZero(body[at..at + n])
  {
    var part, whole := body[at..at + n], body[at..at + pad];
    forall i | 0 <= i < n ensures part[i] == 0 { assert whole[i] == 0; }
  }

  lemma HeaderStep(d: Digest, repo: Bytes, body: Bytes, at: nat, mem: Mem)
    requires |repo| == 16 && Offset(at) == 0 && at + HEADER <= |body|
    requires body[at..at + HEADER] == SegmentHeader(d, repo, Segment(at))
    ensures StepAt(d, repo, body, Idle(at, mem)) == Next(Idle(at + HEADER, mem))
  {
  }

  /** Recovery crosses a complete gap and lands on the first record after it. */
  lemma GapRun(d: Digest, repo: Bytes, body: Bytes, end: nat, mem: Mem, required: nat)
    requires |repo| == 16 && end % 8 == 0 && Begin(end, required) <= |body|
    requires body[end..Begin(end, required)] == Gap(d, repo, end, required)
    ensures Run(d, repo, body, Idle(end, mem)) == Run(d, repo, body, Idle(Begin(end, required), mem))
  {
    hide StepAt, Run, SegmentHeader, Offset, Segment;
    if NeedsSegment(end, required) {
      var at := SegmentAt(end);
      SplitWhole(body, end, Zeros(at - end), SegmentHeader(d, repo, Segment(at)));
      if Offset(end) != 0 {
        PadStep(d, repo, body, end, mem, at - end);
        RunNext(d, repo, body, Idle(end, mem), Idle(at, mem));
      }
      HeaderStep(d, repo, body, at, mem);
      RunNext(d, repo, body, Idle(at, mem), Idle(at + HEADER, mem));
    }
  }

  lemma HeaderTorn(d: Digest, repo: Bytes, body: Bytes, at: nat, mem: Mem)
    requires |repo| == 16 && Offset(at) == 0 && at <= |body| < at + HEADER
    ensures Run(d, repo, body, Idle(at, mem)) == Some(Idle(at, mem))
  {
  }

  /** A gap cut short changes nothing recovery has learned. */
  lemma GapTorn(d: Digest, repo: Bytes, body: Bytes, end: nat, mem: Mem, required: nat)
    requires |repo| == 16 && end % 8 == 0 && end <= |body| < Begin(end, required)
    requires body[end..] == Gap(d, repo, end, required)[..|body| - end]
    ensures Run(d, repo, body, Idle(end, mem)).Some? && Run(d, repo, body, Idle(end, mem)).value.mem == mem
  {
    hide StepAt, SegmentHeader, Offset, Segment;
    var at := SegmentAt(end);
    SplitTorn(body, end, Zeros(at - end), SegmentHeader(d, repo, Segment(at)));
    if end == |body| {
    } else if Offset(end) == 0 {
      HeaderTorn(d, repo, body, end, mem);
    } else {
      var pad := Min(at - end, |body| - end);
      assert body[end..end + pad] == Zeros(at - end)[..pad];
      PadStep(d, repo, body, end, mem, pad);
      RunNext(d, repo, body, Idle(end, mem), Idle(end + pad, mem));
      if end + pad == at { HeaderTorn(d, repo, body, at, mem); }
    }
  }

  // ---- Recovery over records ----

  /** The cursor after accepting records as they were encoded. */
  function Fold(d: Digest, c: Cursor, recs: seq<Rec>): Step
    decreases |recs|
  {
    if recs == [] then Next(c)
    else
      match Accept(d, c, recs[0], Encode(d, recs[0]))
      case Next(c') => Fold(d, c', recs[1..])
      case other => other
  }

  /** No record but the last may change what recovery reports. */
  predicate Quiet(d: Digest, c: Cursor, recs: seq<Rec>)
    decreases |recs|
  {
    recs == [] ||
    (Encodable(recs[0]) &&
     var s := Accept(d, c, recs[0], Encode(d, recs[0]));
     s.Next? && (|recs| == 1 || (s.cursor.mem == c.mem && Quiet(d, s.cursor, recs[1..]))))
  }

  lemma StartsNonZero(d: Digest, r: Rec, body: Bytes, at: nat)
    requires at < |body|
    requires body[at] == Encode(d, r)[0]
    ensures !AllZero(body[at..at + Min(4, |body| - at)])
  {
    assert body[at] == MAGIC[0];
    assert body[at..at + Min(4, |body| - at)][0] == body[at];
  }

  lemma RecordStep(d: Digest, repo: Bytes, body: Bytes, c: Cursor, r: Rec)
    requires |repo| == 16 && Encodable(r) && c.at + RecordLength(|r.payload|) <= |body|
    requires body[c.at..c.at + RecordLength(|r.payload|)] == Encode(d, r)
    requires Offset(c.at) != 0 && Offset(c.at) + RecordLength(|r.payload|) <= SPAN
    ensures StepAt(d, repo, body, c) == Accept(d, c, r, Encode(d, r))
  {
    hide ReadRecord, Accept, Encode;
    ReadWhole(d, r, body, c.at, |body|);
    assert body[c.at] == body[c.at..c.at + RecordLength(|r.payload|)][0];
    StartsNonZero(d, r, body, c.at);
  }

  lemma TornStep(d: Digest, repo: Bytes, body: Bytes, c: Cursor, r: Rec)
    requires |repo| == 16 && Encodable(r) && c.at < |body| < c.at + RecordLength(|r.payload|)
    requires body[c.at..] == Encode(d, r)[..|body| - c.at]
    requires Offset(c.at) != 0 && Offset(c.at) + RecordLength(|r.payload|) <= SPAN
    ensures StepAt(d, repo, body, c) == Stop
  {
    hide ReadRecord, Accept, Encode, RecordLength, Offset, SegmentHeader;
    ReadTorn(d, r, body, c.at);
    assert body[c.at] == body[c.at..][0];
    StartsNonZero(d, r, body, c.at);
  }

  lemma TornStop(d: Digest, repo: Bytes, body: Bytes, c: Cursor, r: Rec)
    requires |repo| == 16 && Encodable(r) && c.at <= |body| < c.at + RecordLength(|r.payload|)
    requires body[c.at..] == Encode(d, r)[..|body| - c.at]
    requires Offset(c.at) != 0 && Offset(c.at) + RecordLength(|r.payload|) <= SPAN
    ensures Run(d, repo, body, c) == Some(c)
  {
    if c.at < |body| { TornStep(d, repo, body, c, r); }
  }

  lemma {:induction false} RunRecords(d: Digest, repo: Bytes, body: Bytes, c: Cursor, recs: seq<Rec>)
    requires |repo| == 16 && Quiet(d, c, recs)
    requires c.at + |EncodeAll(d, recs)| <= |body|
    requires body[c.at..c.at + |EncodeAll(d, recs)|] == EncodeAll(d, recs)
    requires Offset(c.at) != 0 && Offset(c.at) + |EncodeAll(d, recs)| <= SPAN
    ensures Fold(d, c, recs).Next? && Fold(d, c, recs).cursor.at == c.at + |EncodeAll(d, recs)|
    ensures Run(d, repo, body, c) == Run(d, repo, body, Fold(d, c, recs).cursor)
    decreases |recs|
  {
    hide Accept, Encode, StepAt, Run, RecordLength, Offset;
    if recs != [] {
      var r, rest := recs[0], EncodeAll(d, recs[1..]);
      SplitWhole(body, c.at, Encode(d, r), rest);
      RecordStep(d, repo, body, c, r);
      var c' := Accept(d, c, r, Encode(d, r)).cursor;
      RunNext(d, repo, body, c, c');
      if |recs| == 1 {
        assert recs[1..] == [];
      } else {
        assert |rest| > 0 by { assert rest == Encode(d, recs[1]) + EncodeAll(d, recs[1..][1..]); }
        OffsetAdd(c.at, |Encode(d, r)|);
        RunRecords(d, repo, body, c', recs[1..]);
      }
    }
  }

  lemma {:induction false} RunTorn(d: Digest, repo: Bytes, body: Bytes, c: Cursor, recs: seq<Rec>)
    requires |repo| == 16 && Quiet(d, c, recs)
    requires c.at <= |body| < c.at + |EncodeAll(d, recs)|
    requires body[c.at..] == EncodeAll(d, recs)[..|body| - c.at]
    requires Offset(c.at) != 0 && Offset(c.at) + |EncodeAll(d, recs)| <= SPAN
    ensures Run(d, repo, body, c).Some? && Run(d, repo, body, c).value.mem == c.mem
    decreases |recs|
  {
    hide Accept, Encode, StepAt, Run, RecordLength, Offset;
    var r, rest := recs[0], EncodeAll(d, recs[1..]);
    SplitTorn(body, c.at, Encode(d, r), rest);
    if |body| < c.at + |Encode(d, r)| {
      TornStop(d, repo, body, c, r);
    } else {
      RecordStep(d, repo, body, c, r);
      var c' := Accept(d, c, r, Encode(d, r)).cursor;
      RunNext(d, repo, body, c, c');
      assert |recs| > 1;
      OffsetAdd(c.at, |Encode(d, r)|);
      RunTorn(d, repo, body, c', recs[1..]);
    }
  }

  // ---- A whole append ----

  lemma BeginInSegment(end: nat, required: nat)
    requires 0 < required <= SPAN - HEADER
    ensures Offset(Begin(end, required)) != 0 && Offset(Begin(end, required)) + required <= SPAN
  {
  }

  /** A completed append takes recovery from the old state to the folded one,
      whatever follows it in the file. */
  lemma AppendRun(d: Digest, repo: Bytes, body: Bytes, mem: Mem, recs: seq<Rec>)
    requires |repo| == 16 && mem.end % 8 == 0 && recs != []
    requires |EncodeAll(d, recs)| <= SPAN - HEADER
    requires Quiet(d, Idle(Begin(mem.end, |EncodeAll(d, recs)|), mem), recs)
    requires mem.end + |Append(d, repo, mem.end, recs)| <= |body|
    requires body[mem.end..mem.end + |Append(d, repo, mem.end, recs)|] == Append(d, repo, mem.end, recs)
    ensures var s := Fold(d, Idle(Begin(mem.end, |EncodeAll(d, recs)|), mem), recs);
            s.Next? && s.cursor.at == mem.end + |Append(d, repo, mem.end, recs)| &&
            Run(d, repo, body, Idle(mem.end, mem)) == Run(d, repo, body, s.cursor)
  {
    var required := |EncodeAll(d, recs)|;
    var begin := Begin(mem.end, required);
    assert required > 0;
    SplitWhole(body, mem.end, Gap(d, repo, mem.end, required), EncodeAll(d, recs));
    hide StepAt, Run, Gap, Accept, Encode, Quiet, Offset, SegmentAt;
    GapRun(d, repo, body, mem.end, mem, required);
    BeginInSegment(mem.end, required);
    RunRecords(d, repo, body, Idle(begin, mem), recs);
  }

  /** An append that lost its tail at any byte is invisible. */
  lemma AppendTorn(d: Digest, repo: Bytes, body: Bytes, mem: Mem, recs: seq<Rec>)
    requires |repo| == 16 && mem.end % 8 == 0 && recs != []
    requires |EncodeAll(d, recs)| <= SPAN - HEADER
    requires Quiet(d, Idle(Begin(mem.end, |EncodeAll(d, recs)|), mem), recs)
    requires mem.end <= |body| < mem.end + |Append(d, repo, mem.end, recs)|
    requires body[mem.end..] == Append(d, repo, mem.end, recs)[..|body| - mem.end]
    ensures Run(d, repo, body, Idle(mem.end, mem)).Some? && Run(d, repo, body, Idle(mem.end, mem)).value.mem == mem
  {
    var required := |EncodeAll(d, recs)|;
    var begin := Begin(mem.end, required);
    var gap := Gap(d, repo, mem.end, required);
    assert required > 0;
    SplitTorn(body, mem.end, gap, EncodeAll(d, recs));
    hide StepAt, Run, Gap, Accept, Encode, Quiet, Offset, SegmentAt;
    if |body| < begin {
      GapTorn(d, repo, body, mem.end, mem, required);
    } else {
      GapRun(d, repo, body, mem.end, mem, required);
      BeginInSegment(mem.end, required);
      RunTorn(d, repo, body, Idle(begin, mem), recs);
    }
  }
}
