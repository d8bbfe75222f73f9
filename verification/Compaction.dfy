/** Background compaction against foreground commits, snapshots and forks
    (daemon/compaction.cpp, daemon/maintenance.cpp, daemon/namespace.cpp). */
module Compaction {
  import opened Bytes
  import opened JournalCodec
  import opened RunCodec
  import opened Runs

  // ---- Building the output ----

  ghost predicate Writable(run: Changes) {
    Fitting(run) && RunEntries(run)
  }

  /** Runs a manifest may list: few enough, distinct, and each one encodable. */
  ghost predicate Listable(runs: seq<Changes>) {
    0 < |runs| <= MAX_RUNS && NoRepeats(runs) && forall r :: r in runs ==> Writable(r)
  }

  /** Listable runs that mean exactly this map. */
  ghost predicate Image(runs: seq<Changes>, refs: Refs) {
    Listable(runs) && References(runs) == refs
  }

  ghost predicate Storable(refs: Refs) {
    forall k :: k in refs ==> RunKey(k) && refs[k] != NO_HASH
  }

  lemma {:induction false} FlatSorted(parts: seq<seq<Bytes>>)
    requires Sorted(Flat(parts))
    ensures forall i :: 0 <= i < |parts| ==> Sorted(parts[i])
    ensures forall i, j :: 0 <= i < j < |parts| ==> forall k, x :: k in parts[i] && x in parts[j] ==> Less(k, x)
  {
    hide Less;
    if parts != [] {
      var head, rest := parts[0], Flat(parts[1..]);
      SortedHalves(head, rest);
      FlatSorted(parts[1..]);
      forall i, j, k, x | 0 <= i < j < |parts| && k in parts[i] && x in parts[j] ensures Less(k, x) {
        if i == 0 { assert parts[1..][j - 1] == parts[j]; InFlat(parts[1..], parts[j], x); }
        else { assert parts[1..][i - 1] == parts[i] && parts[1..][j - 1] == parts[j]; }
      }
      forall i | 0 <= i < |parts| ensures Sorted(parts[i]) { if i > 0 { assert parts[1..][i - 1] == parts[i]; } }
    }
  }

  lemma SortedHalves(a: seq<Bytes>, b: seq<Bytes>)
    requires Sorted(a + b)
    ensures Sorted(a) && Sorted(b) && forall k, x :: k in a && x in b ==> Less(k, x)
  {
    hide Less;
    var s := a + b;
    forall i, j | 0 <= i < j < |a| ensures Less(a[i], a[j]) { assert s[i] == a[i] && s[j] == a[j]; }
    forall i, j | 0 <= i < j < |b| ensures Less(b[i], b[j]) { assert s[|a| + i] == b[i] && s[|a| + j] == b[j]; }
    forall k, x | k in a && x in b ensures Less(k, x) {
      var i :| 0 <= i < |a| && a[i] == k;
      var j :| 0 <= j < |b| && b[j] == x;
      assert s[i] == k && s[|a| + j] == x;
    }
  }

  lemma {:induction false} PartAt(refs: Refs, parts: seq<seq<Bytes>>, i: nat)
    requires KeysIn(refs, parts) && i < |parts|
    ensures (forall k :: k in parts[i] ==> k in refs) && PartsOf(refs, parts)[i] == PartOf(refs, parts[i])
  {
    assert parts[i] in parts;
    if i > 0 {
      assert forall p :: p in parts[1..] ==> p in parts;
      PartAt(refs, parts[1..], i - 1);
    }
  }

  lemma PartWritable(refs: Refs, keys: seq<Bytes>)
    requires Storable(refs) && keys != [] && Sorted(keys) && 12 + SizeOf(keys) <= PART
    requires forall k :: k in keys ==> k in refs
    ensures Writable(PartOf(refs, keys))
  {
    hide Less, SizeOf, SortedKeys, RunKey;
    var part := PartOf(refs, keys);
    assert keys[0] in part;
    SortedUnique(keys, SortedKeys(part.Keys));
  }

  lemma PartsDistinct(refs: Refs, parts: seq<seq<Bytes>>)
    requires KeysIn(refs, parts) && Sorted(Flat(parts)) && forall i :: 0 <= i < |parts| ==> parts[i] != []
    ensures NoRepeats(PartsOf(refs, parts))
  {
    hide Less, PartsOf, Flat;
    FlatSorted(parts);
    var runs := PartsOf(refs, parts);
    forall i, j | 0 <= i < j < |runs| ensures runs[i] != runs[j] {
      PartAt(refs, parts, i);
      PartAt(refs, parts, j);
      var k := parts[i][0];
      assert k in runs[i];
      LessIrreflexive(k);
      assert k !in parts[j];
    }
  }

  /** Rewrites a whole map as fresh runs; refuses a map without a root or one that needs
      too many runs. */
  method Compact(refs: Refs) returns (runs: Option<seq<Changes>>)
    requires Storable(refs)
    ensures runs.Some? ==> ROOT in refs && Image(runs.value, refs)
    ensures ROOT in refs && SizeOf(SortedKeys(refs.Keys)) < MAX_RUNS * FULL ==> runs.Some?
  {
    hide *;
    if ROOT !in refs { return None; }
    var keys := ListKeys(refs.Keys);
    KeysShort(refs);
    var parts := Pack(keys);
    if |parts| > MAX_RUNS { PackBound(parts, MAX_RUNS); return None; }
    PackedMeans(refs, parts);
    PartsImage(refs, parts);
    var out := BuildParts(refs, parts);
    return Some(out);
  }

  /** The least a part can weigh when the next key did not fit. */
  const FULL: nat := PART - 12 - 40 - MAX_KEY + 1

  lemma {:induction false} SizeConcat(a: seq<Bytes>, b: seq<Bytes>)
    ensures SizeOf(a + b) == SizeOf(a) + SizeOf(b)
  {
    if a == [] {
      assert a + b == b;
    } else {
      assert (a + b)[1..] == a[1..] + b;
      SizeConcat(a[1..], b);
    }
  }

  /** Many parts mean many bytes, since all but the last are nearly full. */
  lemma {:induction false} PackBound(parts: seq<seq<Bytes>>, n: nat)
    requires |parts| > n && forall i :: 0 <= i < |parts| - 1 ==> Full(parts[i])
    ensures SizeOf(Flat(parts)) >= n * FULL
  {
    hide SizeOf;
    SizeConcat(parts[0], Flat(parts[1..]));
    if n > 0 {
      forall i | 0 <= i < |parts[1..]| - 1 ensures Full(parts[1..][i]) { assert parts[1..][i] == parts[i + 1]; }
      PackBound(parts[1..], n - 1);
      assert n * FULL == (n - 1) * FULL + FULL;
    }
  }

  lemma KeysShort(refs: Refs)
    requires Storable(refs)
    ensures forall k :: k in SortedKeys(refs.Keys) ==> |k| <= MAX_KEY
  {
  }

  lemma PartsImage(refs: Refs, parts: seq<seq<Bytes>>)
    requires Storable(refs) && KeysIn(refs, parts) && References(PartsOf(refs, parts)) == refs
    requires 0 < |parts| <= MAX_RUNS
    requires Flat(parts) == SortedKeys(refs.Keys)
    requires forall i :: 0 <= i < |parts| ==> parts[i] != [] && 12 + SizeOf(parts[i]) <= PART
    ensures Image(PartsOf(refs, parts), refs)
  {
    hide Less, PartsOf, Flat, SizeOf, SortedKeys, References, Writable, Storable;
    PartsDistinct(refs, parts);
    FlatSorted(parts);
    var runs := PartsOf(refs, parts);
    forall r | r in runs ensures Writable(r) {
      var i :| 0 <= i < |runs| && runs[i] == r;
      PartAt(refs, parts, i);
      PartWritable(refs, parts[i]);
    }
  }

  method BuildParts(refs: Refs, parts: seq<seq<Bytes>>) returns (runs: seq<Changes>)
    requires KeysIn(refs, parts)
    ensures runs == PartsOf(refs, parts)
  {
    hide PartsOf;
    runs := [];
    for i := 0 to |parts|
      invariant |runs| == i && forall j :: 0 <= j < i ==> runs[j] == PartsOf(refs, parts)[j]
    {
      PartAt(refs, parts, i);
      runs := runs + [PartOf(refs, parts[i])];
    }
  }

  /** Committing a delta to an image of a map gives an image of the changed map, as long
      as the list has room. */
  lemma PlannedImage(runs: seq<Changes>, refs: Refs, delta: Changes)
    requires Image(runs, refs) && Writable(delta) && |Planned(runs, delta)| <= MAX_RUNS
    ensures Image(Planned(runs, delta), ApplyChanges(refs, delta))
  {
    hide References, Writable, ApplyChanges, NoRepeats;
    PlannedMeans(runs, delta);
    PlannedDistinct(runs, delta);
    assert Planned(runs, delta) != [] by { assert runs != []; }
  }

  /** What listable runs mean can be packed again. */
  lemma {:induction false} ListedStorable(runs: seq<Changes>)
    requires forall r :: r in runs ==> Writable(r)
    ensures Storable(References(runs))
  {
    hide Fitting, RunKey;
    if runs != [] {
      assert runs[0] in runs && forall r :: r in runs[1..] ==> r in runs;
      ListedStorable(runs[1..]);
      AppliedStorable(References(runs[1..]), runs[0]);
    }
  }

  lemma AppliedStorable(refs: Refs, delta: Changes)
    requires Storable(refs) && RunEntries(delta)
    ensures Storable(ApplyChanges(refs, delta))
  {
    hide RunKey;
    forall k | k in ApplyChanges(refs, delta) ensures RunKey(k) && ApplyChanges(refs, delta)[k] != NO_HASH {
      if k in delta { assert RunEntry(k, delta[k]); }
    }
  }

  // ---- Publishing ----

  ghost function Ids(d: Digest, runs: seq<Changes>): seq<Hash> {
    seq<Hash>(|runs|, i requires 0 <= i < |runs| => d.sha(RunBytes(runs[i])))
  }

  /** The hash tells these runs apart and is never the null reference. */
  ghost predicate Tells(d: Digest, runs: seq<Changes>) {
    (forall i :: 0 <= i < |runs| ==> d.sha(RunBytes(runs[i])) != NO_HASH) &&
    (forall i, j :: 0 <= i < |runs| && 0 <= j < |runs| && d.sha(RunBytes(runs[i])) == d.sha(RunBytes(runs[j])) ==>
      RunBytes(runs[i]) == RunBytes(runs[j]))
  }

  /** The manifest of any image, planned or compacted, is accepted by the loader, and its
      root key is found exactly when the map has one. */
  lemma ManifestAccepted(d: Digest, runs: seq<Changes>, refs: Refs)
    requires Image(runs, refs) && Tells(d, runs)
    ensures DecodeManifest(ManifestBytes(Ids(d, runs))) == Some(Ids(d, runs))
    ensures Lookup(runs, ROOT).Some? <==> ROOT in refs
  {
    hide RunBytes, References, Writable, Lookup;
    var ids := Ids(d, runs);
    forall i, j | 0 <= i < j < |ids| ensures ids[i] != ids[j] {
      assert runs[i] in runs && runs[j] in runs;
      if RunBytes(runs[i]) == RunBytes(runs[j]) { SameRun(runs[i], runs[j]); }
    }
    ManifestRoundTrip(ids);
    LookupIsMap(runs, ROOT);
  }

  lemma SameRun(a: Changes, b: Changes)
    requires Writable(a) && Writable(b) && RunBytes(a) == RunBytes(b)
    ensures a == b
  {
    hide RunBytes, Fitting, RunEntries, DecodeRun;
    RunRoundTrip(a);
    RunRoundTrip(b);
  }
}
