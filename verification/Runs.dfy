/** Namespace views as lists of immutable runs, newest first (daemon/metadata_view.cpp).
    A run reference stands for the run's content, as its content hash does. */
module Runs {
  import opened Bytes
  import opened JournalCodec
  import opened RunCodec

  /** What a run list means: every run applied, the oldest first. */
  function References(runs: seq<Changes>): Refs {
    if runs == [] then map[] else ApplyChanges(References(runs[1..]), runs[0])
  }

  /** The first run that knows the key decides, tombstones included. */
  function Lookup(runs: seq<Changes>, key: Bytes): Option<Hash> {
    if runs == [] then None else if key in runs[0] then runs[0][key] else Lookup(runs[1..], key)
  }

  function Find(refs: Refs, key: Bytes): Option<Hash> {
    if key in refs then Some(refs[key]) else None
  }

  /** Reading newest first is reading the merged map. */
  lemma {:induction false} LookupIsMap(runs: seq<Changes>, key: Bytes)
    ensures Lookup(runs, key) == Find(References(runs), key)
  {
    if runs != [] { LookupIsMap(runs[1..], key); }
  }

  method LookupLoop(runs: seq<Changes>, key: Bytes) returns (value: Option<Hash>)
    ensures value == Find(References(runs), key)
  {
    LookupIsMap(runs, key);
    for i := 0 to |runs|
      invariant Lookup(runs, key) == Lookup(runs[i..], key)
    {
      assert runs[i..][1..] == runs[i + 1..];
      if key in runs[i] { return runs[i][key]; }
    }
    return None;
  }

  method ReferencesLoop(runs: seq<Changes>) returns (refs: Refs)
    ensures refs == References(runs)
  {
    refs := map[];
    var i := |runs|;
    assert runs[i..] == [];
    while i > 0
      invariant 0 <= i <= |runs| && refs == References(runs[i..])
    {
      i := i - 1;
      assert runs[i..][1..] == runs[i + 1..];
      refs := ApplyChanges(refs, runs[i]);
    }
  }

  // ---- Prefix scans ----

  /** What every run says first about a key. */
  function First(runs: seq<Changes>): Changes {
    if runs == [] then map[] else First(runs[1..]) + runs[0]
  }

  lemma {:induction false} FirstIsLookup(runs: seq<Changes>, key: Bytes)
    ensures Lookup(runs, key) == if key in First(runs) then First(runs)[key] else None
  {
    if runs != [] { FirstIsLookup(runs[1..], key); }
  }

  ghost function Prefixed(refs: Refs, prefix: Bytes): set<Bytes> {
    set k | k in refs && StartsWith(k, prefix)
  }

  ghost predicate SelectedOk(selected: Changes, runs: seq<Changes>, prefix: Bytes) {
    forall k ::
      (k in selected <==> k in First(runs) && StartsWith(k, prefix)) &&
      (k in selected ==> selected[k] == First(runs)[k])
  }

  /** Keeps the first occurrence of each key in range, then lists those not deleted. */
  method KeysLoop(runs: seq<Changes>, prefix: Bytes) returns (keys: seq<Bytes>)
    ensures keys == SortedKeys(Prefixed(References(runs), prefix))
  {
    hide StartsWith, SortedKeys;
    var selected: Changes := map[];
    for i := 0 to |runs|
      invariant SelectedOk(selected, runs[..i], prefix)
    {
      var taken := map k | k in runs[i] && StartsWith(k, prefix) :: runs[i][k];
      SelectedStep(selected, runs, i, prefix);
      selected := taken + selected;
    }
    assert runs[..|runs|] == runs;
    var live := set k | k in selected && selected[k].Some?;
    forall k ensures k in live <==> k in Prefixed(References(runs), prefix) {
      FirstIsLookup(runs, k);
      LookupIsMap(runs, k);
    }
    assert live == Prefixed(References(runs), prefix);
    keys := ListKeys(live);
  }

  lemma {:induction false} FirstSnoc(runs: seq<Changes>, run: Changes)
    ensures First(runs + [run]) == run + First(runs)
  {
    if runs == [] {
      assert runs + [run] == [run] && [run][1..] == [];
    } else {
      assert (runs + [run])[1..] == runs[1..] + [run];
      FirstSnoc(runs[1..], run);
    }
  }

  lemma SelectedStep(selected: Changes, runs: seq<Changes>, i: nat, prefix: Bytes)
    requires i < |runs| && SelectedOk(selected, runs[..i], prefix)
    ensures SelectedOk((map k | k in runs[i] && StartsWith(k, prefix) :: runs[i][k]) + selected, runs[..i + 1], prefix)
  {
    hide StartsWith, First;
    assert runs[..i + 1] == runs[..i] + [runs[i]];
    FirstSnoc(runs[..i], runs[i]);
  }

  // ---- Committing a delta ----

  function Without(runs: seq<Changes>, run: Changes): seq<Changes> {
    if runs == [] then [] else (if runs[0] == run then [] else [runs[0]]) + Without(runs[1..], run)
  }

  /** The delta goes in front; an older run with the same content moves there. */
  function Planned(runs: seq<Changes>, delta: Changes): seq<Changes> {
    if delta == map[] || (runs != [] && runs[0] == delta) then runs else [delta] + Without(runs, delta)
  }

  lemma {:induction false} LookupWithout(runs: seq<Changes>, run: Changes, key: Bytes)
    requires key !in run
    ensures Lookup(Without(runs, run), key) == Lookup(runs, key)
  {
    if runs != [] {
      LookupWithout(runs[1..], run, key);
      var rest := Without(runs[1..], run);
      assert ([runs[0]] + rest)[1..] == rest && [] + rest == rest;
    }
  }

  /** Committing a delta is applying it, even when its run was already in the list. */
  lemma PlannedMeans(runs: seq<Changes>, delta: Changes)
    ensures References(Planned(runs, delta)) == ApplyChanges(References(runs), delta)
  {
    hide References, Lookup, Without;
    var planned, want := Planned(runs, delta), ApplyChanges(References(runs), delta);
    forall k ensures Find(References(planned), k) == Find(want, k) {
      LookupIsMap(planned, k);
      LookupIsMap(runs, k);
      LookupFront(runs, k);
      if planned != runs {
        LookupFront(planned, k);
        assert planned[1..] == Without(runs, delta);
        if k !in delta { LookupWithout(runs, delta, k); }
      }
    }
    SameMap(References(planned), want);
  }

  lemma LookupFront(runs: seq<Changes>, key: Bytes)
    ensures runs != [] ==> Lookup(runs, key) == if key in runs[0] then runs[0][key] else Lookup(runs[1..], key)
  {
  }

  lemma SameMap(a: Refs, b: Refs)
    requires forall k :: Find(a, k) == Find(b, k)
    ensures a == b
  {
    forall k ensures k in a <==> k in b { assert Find(a, k) == Find(b, k); }
    forall k | k in a ensures a[k] == b[k] { assert Find(a, k) == Find(b, k); }
  }

  lemma {:induction false} WithoutDistinct(runs: seq<Changes>, run: Changes)
    requires NoRepeats(runs)
    ensures NoRepeats(Without(runs, run)) && |Without(runs, run)| <= |runs|
    ensures forall r :: r in Without(runs, run) <==> r in runs && r != run
  {
    if runs != [] {
      var rest := Without(runs[1..], run);
      assert NoRepeats(runs[1..]);
      WithoutDistinct(runs[1..], run);
      assert forall i :: 1 <= i < |runs| ==> runs[0] != runs[i];
      assert runs[0] !in runs[1..];
      assert runs == [runs[0]] + runs[1..];
    }
  }

  /** The new list still names each run once, and grows by at most one. */
  lemma PlannedDistinct(runs: seq<Changes>, delta: Changes)
    requires NoRepeats(runs)
    ensures NoRepeats(Planned(runs, delta)) && |Planned(runs, delta)| <= |runs| + 1
    ensures forall r :: r in Planned(runs, delta) ==> r in runs || (r == delta && delta != map[])
  {
    WithoutDistinct(runs, delta);
    var rest := Without(runs, delta);
    assert forall i :: 0 <= i < |rest| ==> rest[i] in rest;
    assert NoRepeats([delta] + rest);
  }

  method Plan(runs: seq<Changes>, delta: Changes) returns (planned: seq<Changes>, output: seq<Changes>)
    ensures planned == Planned(runs, delta)
    ensures forall r :: r in planned ==> r in runs || r in output
    ensures forall r :: r in output ==> r == delta
  {
    hide Without;
    if delta == map[] { return runs, []; }
    if runs != [] && runs[0] == delta { return runs, []; }
    WithoutSubset(runs, delta);
    return [delta] + Without(runs, delta), [delta];
  }

  lemma {:induction false} WithoutSubset(runs: seq<Changes>, run: Changes)
    ensures forall r :: r in Without(runs, run) ==> r in runs && r != run
  {
    if runs != [] { WithoutSubset(runs[1..], run); }
  }

  // ---- Packing a whole map into runs ----

  const PART: nat := 65536

  /** A stretch of a map's keys as a run. */
  function PartOf(refs: Refs, keys: seq<Bytes>): Changes
    requires forall k :: k in keys ==> k in refs
  {
    map k | k in keys :: Some(refs[k])
  }

  ghost predicate KeysIn(refs: Refs, parts: seq<seq<Bytes>>) {
    forall p, k :: p in parts && k in p ==> k in refs
  }

  function PartsOf(refs: Refs, parts: seq<seq<Bytes>>): (runs: seq<Changes>)
    requires KeysIn(refs, parts)
    ensures |runs| == |parts|
  {
    if parts == [] then [] else [PartOf(refs, parts[0])] + PartsOf(refs, parts[1..])
  }

  function Flat(parts: seq<seq<Bytes>>): seq<Bytes> {
    if parts == [] then [] else parts[0] + Flat(parts[1..])
  }

  /** Runs that each repeat a map's own references answer as the map on the keys they hold. */
  lemma {:induction false} PartsFind(refs: Refs, parts: seq<seq<Bytes>>, key: Bytes)
    requires KeysIn(refs, parts)
    ensures Lookup(PartsOf(refs, parts), key) == if key in Flat(parts) then Find(refs, key) else None
  {
    if parts != [] {
      assert parts[0] in parts && forall p :: p in parts[1..] ==> p in parts;
      PartsFind(refs, parts[1..], key);
      assert PartsOf(refs, parts)[1..] == PartsOf(refs, parts[1..]);
    }
  }

  /** A full part is within a key of the limit; every part fits it. */
  ghost predicate Full(part: seq<Bytes>) {
    PART < 12 + SizeOf(part) + 40 + MAX_KEY && 12 + SizeOf(part) <= PART
  }

  lemma {:induction false} FlatSnoc(parts: seq<seq<Bytes>>, part: seq<Bytes>)
    ensures Flat(parts + [part]) == Flat(parts) + part
  {
    if parts == [] {
      assert parts + [part] == [part] && [part][1..] == [];
    } else {
      assert (parts + [part])[1..] == parts[1..] + [part];
      FlatSnoc(parts[1..], part);
    }
  }

  /** The greedy split: flush before a key that would pass the limit. */
  method Pack(keys: seq<Bytes>) returns (parts: seq<seq<Bytes>>)
    requires forall k :: k in keys ==> |k| <= MAX_KEY
    ensures Flat(parts) == keys
    ensures forall i :: 0 <= i < |parts| ==> parts[i] != [] && 12 + SizeOf(parts[i]) <= PART
    ensures forall i :: 0 <= i < |parts| - 1 ==> Full(parts[i])
    ensures keys != [] ==> parts != []
  {
    hide SizeOf, Flat;
    parts := [];
    var part, bytes := [], 12;
    NothingFlat();
    for i := 0 to |keys|
      invariant bytes == 12 + SizeOf(part) <= PART && Flat(parts) + part == keys[..i]
      invariant forall j :: 0 <= j < |parts| ==> parts[j] != [] && Full(parts[j])
      invariant i > 0 ==> part != []
    {
      var k := keys[i];
      assert k in keys && keys[..i + 1] == keys[..i] + [k];
      if bytes + 40 + |k| > PART && part != [] {
        FlatSnoc(parts, part);
        parts := parts + [part];
        part, bytes := [], 12;
      }
      SizeSnoc(part, k);
      assert Flat(parts) + (part + [k]) == Flat(parts) + part + [k];
      part, bytes := part + [k], bytes + 40 + |k|;
    }
    assert keys[..|keys|] == keys;
    if part != [] {
      FlatSnoc(parts, part);
      parts := parts + [part];
    }
  }

  lemma NothingFlat()
    ensures Flat([]) == [] && SizeOf([]) == 0
  {
  }

  /** Packing the whole map gives runs that mean the map. */
  lemma PackedMeans(refs: Refs, parts: seq<seq<Bytes>>)
    requires Flat(parts) == SortedKeys(refs.Keys)
    ensures KeysIn(refs, parts) && References(PartsOf(refs, parts)) == refs
  {
    hide SortedKeys, References, PartsOf, Flat;
    forall p, k | p in parts && k in p ensures k in refs { InFlat(parts, p, k); }
    forall k ensures Find(References(PartsOf(refs, parts)), k) == Find(refs, k) {
      PartsFind(refs, parts, k);
      LookupIsMap(PartsOf(refs, parts), k);
    }
    SameMap(References(PartsOf(refs, parts)), refs);
  }

  lemma {:induction false} InFlat(parts: seq<seq<Bytes>>, p: seq<Bytes>, k: Bytes)
    requires p in parts && k in p
    ensures k in Flat(parts)
  {
    if p != parts[0] { assert p in parts[1..]; InFlat(parts[1..], p, k); }
  }
}
