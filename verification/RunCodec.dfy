/** The bytes of immutable sorted runs and manifests (daemon/metadata_view.cpp). */
module RunCodec {
  import opened Bytes
  import opened JournalCodec

  /** "FFRUN001" */
  const RUN_MAGIC: Bytes := [70, 70, 82, 85, 78, 48, 48, 49]
  /** "FFMAN002" */
  const MANIFEST_MAGIC: Bytes := [70, 70, 77, 65, 78, 48, 48, 50]
  const MAX_RUN: nat := 262144
  const MAX_KEY: nat := 1024
  const MAX_RUNS: nat := 32

  predicate RunKey(k: Bytes) {
    StartsWith(k, PREFIX) && |k| <= MAX_KEY
  }

  predicate RunEntry(k: Bytes, v: Option<Hash>) {
    RunKey(k) && v != Some(NO_HASH)
  }

  // ---- Entries ----

  function EntryBytes(k: Bytes, v: Option<Hash>): (b: Bytes)
    ensures |b| == 40 + |k|
  {
    Le(if v.Some? then 1 else 2, 4) + Le(|k|, 4) + k + (if v.Some? then v.value else NO_HASH)
  }

  datatype Parsed = Parsed(key: Bytes, value: Option<Hash>)

  /** One entry at the front of the bytes; None for anything the reader rejects. */
  function ReadEntry(b: Bytes): (e: Option<Parsed>)
    ensures e.Some? ==> 40 + |e.value.key| <= |b|
  {
    if |b| < 8 then None
    else
      var op, n := Num(b[..4]), Num(b[4..8]);
      if (op != 1 && op != 2) || n < 8 || n > MAX_KEY || |b| - 8 < n + 32 then None
      else
        var key, target: Hash := b[8..8 + n], b[8 + n..40 + n];
        if !StartsWith(key, PREFIX) || (op == 1) != (target != NO_HASH) then None
        else Some(Parsed(key, if op == 1 then Some(target) else None))
  }

  lemma EntrySlices(a: Bytes, n: Bytes, k: Bytes, h: Bytes, rest: Bytes)
    requires |a| == 4 && |n| == 4 && |h| == 32
    ensures var b := a + n + k + h + rest;
      b[..4] == a && b[4..8] == n && b[8..8 + |k|] == k && b[8 + |k|..40 + |k|] == h && b[40 + |k|..] == rest
  {
  }

  lemma EntryRead(k: Bytes, v: Option<Hash>, rest: Bytes)
    requires RunEntry(k, v)
    ensures ReadEntry(EntryBytes(k, v) + rest) == Some(Parsed(k, v)) && (EntryBytes(k, v) + rest)[40 + |k|..] == rest
  {
    hide Le, Num, StartsWith;
    FitsU32(if v.Some? then 1 else 2);
    FitsU32(|k|);
    EntrySlices(Le(if v.Some? then 1 else 2, 4), Le(|k|, 4), k, if v.Some? then v.value else NO_HASH, rest);
    assert |k| >= 8 by { PrefixLength(k); }
  }

  lemma PrefixLength(k: Bytes)
    requires StartsWith(k, PREFIX)
    ensures |k| >= 8
  {
  }

  lemma Reassemble(b: Bytes, n: nat)
    requires 40 + n <= |b|
    ensures b == b[..4] + b[4..8] + b[8..8 + n] + b[8 + n..40 + n] + b[40 + n..]
  {
  }

  /** What reads as an entry is that entry's one encoding. */
  lemma ReadEntryBack(b: Bytes)
    requires ReadEntry(b).Some?
    ensures var e := ReadEntry(b).value; RunEntry(e.key, e.value) && b == EntryBytes(e.key, e.value) + b[40 + |e.key|..]
  {
    hide Le, Num, StartsWith;
    var e := ReadEntry(b).value;
    LeNum(b[..4]);
    LeNum(b[4..8]);
    Reassemble(b, |e.key|);
  }

  // ---- Runs ----

  function EntriesBytes(keys: seq<Bytes>, c: Changes): Bytes
    requires forall k :: k in keys ==> k in c
  {
    if keys == [] then [] else EntryBytes(keys[0], c[keys[0]]) + EntriesBytes(keys[1..], c)
  }

  /** Reads `count` entries in key order and then the end. */
  function ReadEntries(b: Bytes, count: nat, previous: Option<Bytes>): Option<Changes> {
    if count == 0 then (if b == [] then Some(map[]) else None)
    else
      var e := ReadEntry(b);
      if e.None? || (previous.Some? && !Less(previous.value, e.value.key)) then None
      else
        var rest := ReadEntries(b[40 + |e.value.key|..], count - 1, Some(e.value.key));
        if rest.None? then None else Some(map[e.value.key := e.value.value] + rest.value)
  }

  function DecodeRun(b: Bytes): Option<Changes> {
    if |b| < 12 || b[..8] != RUN_MAGIC then None
    else
      var count := Num(b[8..12]);
      if count == 0 || count > (|b| - 12) / 48 then None else ReadEntries(b[12..], count, None)
  }

  ghost predicate RunEntries(c: Changes) {
    forall k :: k in c ==> RunEntry(k, c[k])
  }

  function SizeOf(keys: seq<Bytes>): nat {
    if keys == [] then 0 else 40 + |keys[0]| + SizeOf(keys[1..])
  }

  ghost function RunBytes(c: Changes): Bytes {
    RUN_MAGIC + Le(|SortedKeys(c.Keys)|, 4) + EntriesBytes(SortedKeys(c.Keys), c)
  }

  ghost predicate Fitting(c: Changes) {
    c != map[] && (forall k :: k in c ==> RunKey(k)) && 12 + SizeOf(SortedKeys(c.Keys)) <= MAX_RUN
  }

  ghost function Pick(keys: seq<Bytes>, c: Changes): Changes
    requires forall k :: k in keys ==> k in c
  {
    map k | k in keys :: c[k]
  }

  lemma {:induction false} EntriesRead(keys: seq<Bytes>, c: Changes, previous: Option<Bytes>)
    requires Sorted(keys) && (forall k :: k in keys ==> k in c && RunEntry(k, c[k]))
    requires previous.Some? && keys != [] ==> Less(previous.value, keys[0])
    ensures ReadEntries(EntriesBytes(keys, c), |keys|, previous) == Some(Pick(keys, c))
  {
    hide Less, EntryBytes, ReadEntry, RunEntry;
    if keys == [] {
      assert Pick(keys, c) == map[];
    } else {
      var k, rest := keys[0], keys[1..];
      assert k in keys && forall x :: x in rest ==> x in keys;
      EntryRead(k, c[k], EntriesBytes(rest, c));
      if rest != [] { assert Less(keys[0], keys[1]); }
      EntriesRead(rest, c, Some(k));
      assert Pick(keys, c) == map[k := c[k]] + Pick(rest, c) by { PickFirst(keys, c); }
    }
  }

  lemma PickFirst(keys: seq<Bytes>, c: Changes)
    requires keys != [] && Sorted(keys) && forall k :: k in keys ==> k in c
    ensures (forall k :: k in keys[1..] ==> k in c) && Pick(keys, c) == map[keys[0] := c[keys[0]]] + Pick(keys[1..], c)
  {
    hide Less;
    assert forall k :: k in keys[1..] ==> k in keys;
    assert keys == [keys[0]] + keys[1..];
    if keys[0] in keys[1..] {
      var i :| 0 <= i < |keys| - 1 && keys[1..][i] == keys[0];
      assert Less(keys[0], keys[i + 1]);
      LessIrreflexive(keys[0]);
    }
  }

  lemma {:induction false} EntriesSize(keys: seq<Bytes>, c: Changes)
    requires forall k :: k in keys ==> k in c
    ensures |EntriesBytes(keys, c)| == SizeOf(keys)
  {
    hide EntryBytes;
    if keys != [] { EntriesSize(keys[1..], c); }
  }

  lemma {:induction false} SizeAtLeast(keys: seq<Bytes>)
    requires forall k :: k in keys ==> RunKey(k)
    ensures SizeOf(keys) >= 48 * |keys|
  {
    if keys != [] { assert RunKey(keys[0]); SizeAtLeast(keys[1..]); }
  }

  lemma HeadSlices(magic: Bytes, n: Bytes, body: Bytes)
    requires |magic| == 8 && |n| == 4
    ensures var b := magic + n + body; b[..8] == magic && b[8..12] == n && b[12..] == body
  {
  }

  /** A run that may be written reads back as itself, exactly when it holds no zero
      reference. */
  lemma RunRoundTrip(c: Changes)
    requires Fitting(c)
    ensures DecodeRun(RunBytes(c)) == Some(c) <==> RunEntries(c)
  {
    hide Le, Num, SizeOf, EntriesBytes, ReadEntries, SortedKeys;
    if RunEntries(c) {
      RunReads(c);
    } else if DecodeRun(RunBytes(c)) == Some(c) {
      DecodedSound(RunBytes(c));
    }
  }

  lemma RunReads(c: Changes)
    requires Fitting(c) && RunEntries(c)
    ensures DecodeRun(RunBytes(c)) == Some(c)
  {
    hide Le, Num, SizeOf, EntriesBytes, ReadEntries, RunEntry, RunKey;
    var keys := SortedKeys(c.Keys);
    EntriesSize(keys, c);
    SizeAtLeast(keys);
    FitsU32(|keys|);
    HeadSlices(RUN_MAGIC, Le(|keys|, 4), EntriesBytes(keys, c));
    EntriesRead(keys, c, None);
    assert Pick(keys, c) == c;
    assert c.Keys != {};
  }

  lemma {:induction false} ReadEntriesSound(b: Bytes, count: nat, previous: Option<Bytes>)
    requires ReadEntries(b, count, previous).Some?
    ensures var c := ReadEntries(b, count, previous).value;
      RunEntries(c) && (previous.Some? ==> forall k :: k in c ==> Less(previous.value, k))
  {
    hide Less, ReadEntry, RunEntry;
    if count > 0 {
      var e := ReadEntry(b).value;
      ReadEntryBack(b);
      ReadEntriesSound(b[40 + |e.key|..], count - 1, Some(e.key));
      var rest := ReadEntries(b[40 + |e.key|..], count - 1, Some(e.key)).value;
      if previous.Some? {
        forall k | k in rest ensures Less(previous.value, k) { LessTransitive(previous.value, e.key, k); }
      }
    }
  }

  lemma DecodedSound(b: Bytes)
    requires DecodeRun(b).Some?
    ensures RunEntries(DecodeRun(b).value)
  {
    hide ReadEntries, RunEntries, Num;
    ReadEntriesSound(b[12..], Num(b[8..12]), None);
  }

  /** The keys in the order they are read. */
  function Listed(b: Bytes, count: nat): seq<Bytes> {
    if count == 0 || ReadEntry(b).None? then []
    else [ReadEntry(b).value.key] + Listed(b[40 + |ReadEntry(b).value.key|..], count - 1)
  }

  lemma {:induction false} ListedSorted(b: Bytes, count: nat, previous: Option<Bytes>)
    requires ReadEntries(b, count, previous).Some?
    ensures var keys := Listed(b, count);
      |keys| == count && Sorted(keys) && (previous.Some? ==> forall k :: k in keys ==> Less(previous.value, k))
    ensures forall k :: k in Listed(b, count) <==> k in ReadEntries(b, count, previous).value
  {
    hide Less, ReadEntry;
    if count > 0 {
      var e := ReadEntry(b).value;
      ListedSorted(b[40 + |e.key|..], count - 1, Some(e.key));
      var rest := Listed(b[40 + |e.key|..], count - 1);
      SortedCons(e.key, rest);
      if previous.Some? {
        forall k | k in rest ensures Less(previous.value, k) { LessTransitive(previous.value, e.key, k); }
      }
    }
  }

  lemma SortedCons(k: Bytes, keys: seq<Bytes>)
    requires Sorted(keys) && forall x :: x in keys ==> Less(k, x)
    ensures Sorted([k] + keys) && k !in keys
  {
    hide Less;
    LessIrreflexive(k);
  }

  lemma ListedStep(b: Bytes, count: nat, previous: Option<Bytes>)
    requires count > 0 && ReadEntries(b, count, previous).Some?
    ensures ReadEntry(b).Some?
    ensures var e := ReadEntry(b).value; var tail := b[40 + |e.key|..];
      Listed(b, count) == [e.key] + Listed(tail, count - 1) && ReadEntries(tail, count - 1, Some(e.key)).Some? &&
      ReadEntries(b, count, previous).value == map[e.key := e.value] + ReadEntries(tail, count - 1, Some(e.key)).value
  {
    hide Less, ReadEntry;
  }

  lemma {:induction false} ListedCanonical(b: Bytes, count: nat, previous: Option<Bytes>)
    requires ReadEntries(b, count, previous).Some?
    ensures (forall k :: k in Listed(b, count) ==> k in ReadEntries(b, count, previous).value)
    ensures b == EntriesBytes(Listed(b, count), ReadEntries(b, count, previous).value)
  {
    hide *;
    if count == 0 {
      ListedEnd(b, previous);
    } else {
      ListedStep(b, count, previous);
      var e := ReadEntry(b).value;
      var tail := b[40 + |e.key|..];
      ReadEntryBack(b);
      ListedCanonical(tail, count - 1, Some(e.key));
      ListedSorted(tail, count - 1, Some(e.key));
      SortedCons(e.key, Listed(tail, count - 1));
      CanonicalCons(b, e, Listed(tail, count - 1), ReadEntries(tail, count - 1, Some(e.key)).value,
                    ReadEntries(b, count, previous).value);
    }
  }

  lemma ListedEnd(b: Bytes, previous: Option<Bytes>)
    requires ReadEntries(b, 0, previous).Some?
    ensures Listed(b, 0) == [] && b == EntriesBytes([], ReadEntries(b, 0, previous).value)
  {
  }

  lemma CanonicalCons(b: Bytes, e: Parsed, keys: seq<Bytes>, rest: Changes, c: Changes)
    requires (forall k :: k in keys ==> k in rest) && b == EntryBytes(e.key, e.value) + EntriesBytes(keys, rest)
    requires e.key !in keys
    requires c == map[e.key := e.value] + rest && e.key !in rest
    ensures (forall k :: k in [e.key] + keys ==> k in c) && b == EntriesBytes([e.key] + keys, c)
  {
    hide EntryBytes, EntriesBytes;
    SameEntries(keys, rest, c);
    EntriesCons(e.key, keys, c);
  }

  lemma EntriesCons(k: Bytes, keys: seq<Bytes>, c: Changes)
    requires k in c && forall x :: x in keys ==> x in c
    ensures EntriesBytes([k] + keys, c) == EntryBytes(k, c[k]) + EntriesBytes(keys, c)
  {
    hide EntryBytes;
    assert ([k] + keys)[1..] == keys;
  }

  lemma {:induction false} SameEntries(keys: seq<Bytes>, a: Changes, c: Changes)
    requires forall k :: k in keys ==> k in a && k in c && a[k] == c[k]
    ensures EntriesBytes(keys, a) == EntriesBytes(keys, c)
  {
    hide EntryBytes;
    if keys != [] { SameEntries(keys[1..], a, c); }
  }

  /** Bytes that read as a run are that run's one encoding. */
  lemma RunCanonical(b: Bytes)
    requires DecodeRun(b).Some?
    ensures b == RunBytes(DecodeRun(b).value)
  {
    hide Num, Le, ReadEntries, EntriesBytes, SortedKeys, Listed, Sorted;
    var c, count := DecodeRun(b).value, Num(b[8..12]);
    ListedSorted(b[12..], count, None);
    ListedCanonical(b[12..], count, None);
    SortedUnique(Listed(b[12..], count), SortedKeys(c.Keys));
    LeNum(b[8..12]);
    assert b == b[..8] + b[8..12] + b[12..];
  }

  // ---- Writing and reading runs ----

  lemma {:induction false} SizeSnoc(keys: seq<Bytes>, k: Bytes)
    ensures SizeOf(keys + [k]) == SizeOf(keys) + 40 + |k|
  {
    if keys == [] {
      assert keys + [k] == [k] && [k][1..] == [];
    } else {
      assert (keys + [k])[1..] == keys[1..] + [k];
      SizeSnoc(keys[1..], k);
    }
  }

  lemma {:induction false} EntriesSnoc(keys: seq<Bytes>, k: Bytes, c: Changes)
    requires k in c && forall x :: x in keys ==> x in c
    ensures EntriesBytes(keys + [k], c) == EntriesBytes(keys, c) + EntryBytes(k, c[k])
  {
    hide EntryBytes;
    if keys == [] {
      assert keys + [k] == [k] && [k][1..] == [];
    } else {
      assert (keys + [k])[1..] == keys[1..] + [k];
      EntriesSnoc(keys[1..], k, c);
    }
  }

  method EncodeRun(c: Changes) returns (b: Option<Bytes>)
    ensures b == if Fitting(c) then Some(RunBytes(c)) else None
  {
    hide SizeOf, EntriesBytes, EntryBytes, Le, SortedKeys, RunKey;
    if c == map[] { return None; }
    var keys := ListKeys(c.Keys);
    var bytes := 12;
    NoSize(c);
    for i := 0 to |keys|
      invariant bytes == 12 + SizeOf(keys[..i]) && forall k :: k in keys[..i] ==> RunKey(k)
    {
      assert keys[..i + 1] == keys[..i] + [keys[i]];
      SizeSnoc(keys[..i], keys[i]);
      if !RunKey(keys[i]) { assert keys[i] in c; return None; }
      bytes := bytes + 40 + |keys[i]|;
    }
    assert keys[..|keys|] == keys;
    if bytes > MAX_RUN { return None; }
    var out := RUN_MAGIC + Le(|keys|, 4);
    ghost var head := out;
    for i := 0 to |keys|
      invariant (forall k :: k in keys[..i] ==> k in c) && out == head + EntriesBytes(keys[..i], c)
    {
      assert keys[..i + 1] == keys[..i] + [keys[i]];
      EntriesSnoc(keys[..i], keys[i], c);
      out := out + EntryBytes(keys[i], c[keys[i]]);
    }
    return Some(out);
  }

  lemma NoSize(c: Changes)
    ensures SizeOf([]) == 0 && EntriesBytes([], c) == []
  {
  }

  method ParseRun(b: Bytes) returns (result: Option<Changes>)
    ensures result == DecodeRun(b)
  {
    hide Num, ReadEntries, ReadEntry, Less;
    if |b| < 12 || b[..8] != RUN_MAGIC { return None; }
    var count := Num(b[8..12]);
    if count == 0 || count > (|b| - 12) / 48 { return None; }
    var at, c, previous: Option<Bytes> := 12, map[], None;
    JoinedNothing(ReadEntries(b[at..], count, None));
    for i := 0 to count
      invariant 12 <= at <= |b|
      invariant DecodeRun(b) == Joined(c, ReadEntries(b[at..], count - i, previous))
    {
      EntriesStep(b[at..], count - i, previous);
      var e := ReadEntry(b[at..]);
      if e.None? || (previous.Some? && !Less(previous.value, e.value.key)) { return None; }
      JoinedStep(c, e.value, ReadEntries(b[at..][40 + |e.value.key|..], count - i - 1, Some(e.value.key)));
      assert b[at..][40 + |e.value.key|..] == b[at + 40 + |e.value.key|..];
      at := at + 40 + |e.value.key|;
      c := c + map[e.value.key := e.value.value];
      previous := Some(e.value.key);
    }
    EntriesEnd(b[at..], previous);
    assert c + map[] == c;
    if at != |b| { return None; }
    return Some(c);
  }

  ghost function Joined(c: Changes, rest: Option<Changes>): Option<Changes> {
    if rest.None? then None else Some(c + rest.value)
  }

  lemma JoinedNothing(rest: Option<Changes>)
    ensures Joined(map[], rest) == rest
  {
    if rest.Some? { assert map[] + rest.value == rest.value; }
  }

  lemma JoinedStep(c: Changes, e: Parsed, rest: Option<Changes>)
    ensures Joined(c, if rest.None? then None else Some(map[e.key := e.value] + rest.value)) ==
      Joined(c + map[e.key := e.value], rest)
  {
    if rest.Some? { assert c + (map[e.key := e.value] + rest.value) == c + map[e.key := e.value] + rest.value; }
  }

  lemma EntriesStep(b: Bytes, count: nat, previous: Option<Bytes>)
    requires count > 0
    ensures var e := ReadEntry(b);
      ReadEntries(b, count, previous) ==
      if e.None? || (previous.Some? && !Less(previous.value, e.value.key)) then None
      else
        var rest := ReadEntries(b[40 + |e.value.key|..], count - 1, Some(e.value.key));
        if rest.None? then None else Some(map[e.value.key := e.value.value] + rest.value)
  {
  }

  lemma EntriesEnd(b: Bytes, previous: Option<Bytes>)
    ensures ReadEntries(b, 0, previous) == if b == [] then Some(map[]) else None
  {
  }

  // ---- Manifests ----

  function Concat(ids: seq<Hash>): (b: Bytes)
    ensures |b| == 32 * |ids|
  {
    if ids == [] then [] else ids[0] + Concat(ids[1..])
  }

  function ManifestBytes(ids: seq<Hash>): Bytes {
    MANIFEST_MAGIC + Le(|ids|, 4) + Concat(ids)
  }

  function Cut(b: Bytes): (ids: seq<Hash>)
    ensures |ids| == |b| / 32
  {
    if |b| < 32 then [] else [b[..32]] + Cut(b[32..])
  }

  ghost predicate ManifestIds(ids: seq<Hash>) {
    0 < |ids| <= MAX_RUNS && (forall i :: 0 <= i < |ids| ==> ids[i] != NO_HASH) &&
    forall i, j :: 0 <= i < j < |ids| ==> ids[i] != ids[j]
  }

  /** The run references of a manifest, newest first. */
  ghost function DecodeManifest(b: Bytes): Option<seq<Hash>> {
    if |b| < 12 || b[..8] != MANIFEST_MAGIC || |b| != 12 + 32 * Num(b[8..12]) || !ManifestIds(Cut(b[12..])) then None
    else Some(Cut(b[12..]))
  }

  lemma {:induction false} CutConcat(ids: seq<Hash>)
    ensures Cut(Concat(ids)) == ids
  {
    if ids != [] {
      CutConcat(ids[1..]);
      assert Concat(ids)[..32] == ids[0] && Concat(ids)[32..] == Concat(ids[1..]);
    }
  }

  /** A manifest is accepted, as the references it was written from, exactly when they
      are few enough, nonzero and distinct. */
  lemma ManifestRoundTrip(ids: seq<Hash>)
    requires |ids| <= MAX_RUNS
    ensures DecodeManifest(ManifestBytes(ids)) == if ManifestIds(ids) then Some(ids) else None
  {
    hide Le, Num, Concat, Cut;
    FitsU32(|ids|);
    HeadSlices(MANIFEST_MAGIC, Le(|ids|, 4), Concat(ids));
    CutConcat(ids);
  }
  lemma {:induction false} ConcatCut(b: Bytes)
    requires |b| % 32 == 0
    ensures Concat(Cut(b)) == b
    decreases |b|
  {
    if |b| >= 32 {
      ConcatCut(b[32..]);
      var head: Hash := b[..32];
      assert ([head] + Cut(b[32..]))[1..] == Cut(b[32..]);
      assert b == b[..32] + b[32..];
    }
  }

  /** What reads as a manifest is the one encoding of its references. */
  lemma ManifestReadBack(b: Bytes)
    requires DecodeManifest(b).Some?
    ensures ManifestIds(DecodeManifest(b).value) && b == ManifestBytes(DecodeManifest(b).value)
  {
    hide Le, Num, Concat, Cut;
    LeNum(b[8..12]);
    ConcatCut(b[12..]);
    assert b == b[..8] + b[8..12] + b[12..];
  }
}
