/** The LevelDB-backed object store: batch commits and sweeping, with exact counters
    (daemon/level_store.cpp). LevelDB itself is an atomic map. */
module LevelStore {
  import opened Bytes
  import opened JournalCodec

  const MAX_OBJECT: nat := 262144
  const MAX_BATCH_BYTES: nat := 16777216
  const MAX_MUTATIONS: nat := 4096

  /** Payloads by hash. */
  type Objects = map<Bytes, Bytes>

  // ---- What a batch asks for ----

  /** The payloads of a batch by hash; the first with a hash stands for it. */
  ghost function ValuesOf(sha: Bytes -> Hash, ms: seq<Mutation>): Objects {
    if ms == [] then map[]
    else
      var m, rest := ms[|ms| - 1], ValuesOf(sha, ms[..|ms| - 1]);
      if m.value.Some? && m.reference.None? && sha(m.value.value) !in rest
      then rest[sha(m.value.value) := m.value.value]
      else rest
  }

  ghost function Weight(sha: Bytes -> Hash, ms: seq<Mutation>): nat {
    if ms == [] then 0
    else
      var m, front := ms[|ms| - 1], ms[..|ms| - 1];
      var isNew := m.value.Some? && m.reference.None? && sha(m.value.value) !in ValuesOf(sha, front);
      Weight(sha, front) + if isNew then |m.value.value| else 0
  }

  function TargetOf(sha: Bytes -> Hash, m: Mutation): Option<Hash> {
    if m.reference.Some? then m.reference else if m.value.Some? then Some(sha(m.value.value)) else None
  }

  function UpdatesOf(sha: Bytes -> Hash, ms: seq<Mutation>): Changes {
    if ms == [] then map[] else UpdatesOf(sha, ms[..|ms| - 1])[ms[|ms| - 1].key := TargetOf(sha, ms[|ms| - 1])]
  }

  /** One mutation is well formed and can be done. */
  ghost predicate Doable(objects: Objects, roots: Refs, m: Mutation) {
    0 < |m.key| <= 1024 && !(m.value.Some? && m.reference.Some?) &&
    (m.reference.Some? ==> m.reference.value in objects) &&
    (m.value.Some? ==> |m.value.value| <= MAX_OBJECT) &&
    (m.value.None? && m.reference.None? ==> m.key in roots)
  }

  ghost predicate Agrees(objects: Objects, values: Objects) {
    forall h :: h in values && h in objects ==> objects[h] == values[h]
  }

  ghost predicate Acceptable(sha: Bytes -> Hash, objects: Objects, roots: Refs, ms: seq<Mutation>) {
    0 < |ms| <= MAX_MUTATIONS && OnceEach(ms) && (forall m :: m in ms ==> Doable(objects, roots, m)) &&
    Weight(sha, ms) <= MAX_BATCH_BYTES && Agrees(objects, ValuesOf(sha, ms))
  }

  // ---- Counting ----

  lemma {:induction false} UpdateKeys(sha: Bytes -> Hash, ms: seq<Mutation>)
    ensures forall k :: k in UpdatesOf(sha, ms) <==> exists m :: m in ms && m.key == k
  {
    if ms != [] {
      var n := |ms| - 1;
      UpdateKeys(sha, ms[..n]);
      assert ms == ms[..n] + [ms[n]];
      forall k ensures k in UpdatesOf(sha, ms) <==> exists m :: m in ms && m.key == k {
        if m :| m in ms[..n] && m.key == k { assert m in ms; }
        if k == ms[n].key { assert ms[n] in ms; }
      }
    }
  }

  lemma {:induction false} TargetIs(sha: Bytes -> Hash, ms: seq<Mutation>, m: Mutation)
    requires OnceEach(ms) && m in ms
    ensures m.key in UpdatesOf(sha, ms) && UpdatesOf(sha, ms)[m.key] == TargetOf(sha, m)
  {
    var n := |ms| - 1;
    if m != ms[n] {
      assert m in ms[..n];
      TargetIs(sha, ms[..n], m);
    }
  }

  lemma {:induction false} ValueIn(sha: Bytes -> Hash, ms: seq<Mutation>, m: Mutation)
    requires m in ms && m.value.Some? && m.reference.None?
    ensures sha(m.value.value) in ValuesOf(sha, ms)
  {
    var n := |ms| - 1;
    if m != ms[n] {
      assert m in ms[..n];
      ValueIn(sha, ms[..n], m);
    }
  }

  lemma {:induction false} ValueFrom(sha: Bytes -> Hash, ms: seq<Mutation>, h: Bytes)
    requires h in ValuesOf(sha, ms)
    ensures exists m :: m in ms && m.value == Some(ValuesOf(sha, ms)[h]) && m.reference.None?
  {
    var n := |ms| - 1;
    if h in ValuesOf(sha, ms[..n]) {
      ValueFrom(sha, ms[..n], h);
      var m :| m in ms[..n] && m.value == Some(ValuesOf(sha, ms[..n])[h]) && m.reference.None?;
      assert m in ms;
    } else {
      assert ms[n] in ms;
    }
  }

  lemma ApplySnoc(roots: Refs, c: Changes, k: Bytes, t: Option<Hash>)
    requires k !in c
    ensures ApplyChanges(roots, c[k := t]) ==
      if t.Some? then ApplyChanges(roots, c)[k := t.value] else ApplyChanges(roots, c) - {k}
  {
  }

  /** The size of the roots after one more mutation of a key not yet touched. */
  lemma CountStep(roots: Refs, c: Changes, k: Bytes, t: Option<Hash>)
    requires k !in c && (t.None? ==> k in roots)
    ensures |ApplyChanges(roots, c[k := t])| ==
      |ApplyChanges(roots, c)| + (if t.None? then -1 else if k in roots then 0 else 1)
  {
    hide ApplyChanges;
    ApplySnoc(roots, c, k, t);
    var before := ApplyChanges(roots, c);
    assert k in before <==> k in roots;
    if t.Some? {
      assert before[k := t.value].Keys == before.Keys + {k};
    } else {
      assert before.Keys == (before - {k}).Keys + {k};
    }
  }

  lemma ApplyNone(roots: Refs)
    ensures ApplyChanges(roots, map[]) == roots
  {
  }

  // ---- The store ----

  ghost predicate Hashed(sha: Bytes -> Hash, objects: Objects) {
    forall h :: h in objects ==> sha(objects[h]) == h
  }

  ghost predicate Anchored(objects: Objects, roots: Refs) {
    forall k :: k in roots ==> roots[k] in objects
  }

  /** The state a batch builds up while its mutations are read. */
  datatype Batch = Batch(seen: set<Bytes>, values: Objects, updates: Changes, total: nat, roots: nat)

  ghost predicate Readable(sha: Bytes -> Hash, objects: Objects, roots: Refs, ms: seq<Mutation>) {
    OnceEach(ms) && (forall m :: m in ms ==> Doable(objects, roots, m)) && Weight(sha, ms) <= MAX_BATCH_BYTES
  }

  ghost predicate Collected(sha: Bytes -> Hash, objects: Objects, roots: Refs, ms: seq<Mutation>, b: Batch) {
    Readable(sha, objects, roots, ms) &&
    b.seen == b.updates.Keys && b.values == ValuesOf(sha, ms) && b.updates == UpdatesOf(sha, ms) &&
    b.total == Weight(sha, ms) &&
    b.roots == |ApplyChanges(roots, b.updates)|
  }

  lemma {:induction false} WeightMonotone(sha: Bytes -> Hash, ms: seq<Mutation>, i: nat)
    requires i <= |ms|
    ensures Weight(sha, ms[..i]) <= Weight(sha, ms)
  {
    hide ValuesOf;
    if i == |ms| {
      assert ms[..i] == ms;
    } else {
      var n := |ms| - 1;
      assert ms[..n][..i] == ms[..i];
      WeightMonotone(sha, ms[..n], i);
    }
  }

  lemma NotReadable(sha: Bytes -> Hash, objects: Objects, roots: Refs, ms: seq<Mutation>, i: nat)
    requires i < |ms|
    requires !Doable(objects, roots, ms[i]) || Weight(sha, ms[..i + 1]) > MAX_BATCH_BYTES ||
      ms[i].key in UpdatesOf(sha, ms[..i])
    ensures !Readable(sha, objects, roots, ms)
  {
    hide Doable, Weight;
    WeightMonotone(sha, ms, i + 1);
    assert ms[i] in ms;
    if ms[i].key in UpdatesOf(sha, ms[..i]) {
      UpdateKeys(sha, ms[..i]);
      var m :| m in ms[..i] && m.key == ms[i].key;
      var j :| 0 <= j < i && ms[..i][j] == m;
      assert ms[j].key == ms[i].key;
    }
  }

  /** What the batch becomes with one more mutation. */
  function Extended(sha: Bytes -> Hash, b: Batch, m: Mutation, present: bool): Batch {
    var t := TargetOf(sha, m);
    var isNew := m.value.Some? && m.reference.None? && sha(m.value.value) !in b.values;
    var values := if isNew then b.values[sha(m.value.value) := m.value.value] else b.values;
    Batch(b.seen + {m.key}, values, b.updates[m.key := t],
          b.total + (if isNew then |m.value.value| else 0),
          if t.None? then (if b.roots > 0 then b.roots - 1 else 0) else if present then b.roots else b.roots + 1)
  }

  lemma GatherStep(sha: Bytes -> Hash, ms: seq<Mutation>, i: nat)
    requires i < |ms|
    ensures var m := ms[i]; var values := ValuesOf(sha, ms[..i]);
      UpdatesOf(sha, ms[..i + 1]) == UpdatesOf(sha, ms[..i])[m.key := TargetOf(sha, m)] &&
      var isNew := m.value.Some? && m.reference.None? && sha(m.value.value) !in values;
      ValuesOf(sha, ms[..i + 1]) == if isNew then values[sha(m.value.value) := m.value.value] else values
  {
    assert ms[..i + 1][..i] == ms[..i];
  }

  lemma BatchStep(sha: Bytes -> Hash, objects: Objects, roots: Refs, ms: seq<Mutation>, i: nat, b: Batch)
    requires i < |ms| && Collected(sha, objects, roots, ms[..i], b) && Doable(objects, roots, ms[i])
    requires ms[i].key !in b.seen
    requires Extended(sha, b, ms[i], ms[i].key in roots).total <= MAX_BATCH_BYTES
    ensures Collected(sha, objects, roots, ms[..i + 1], Extended(sha, b, ms[i], ms[i].key in roots))
  {
    hide Doable, ApplyChanges, ValuesOf, UpdatesOf, Weight, Readable, TargetOf;
    var m := ms[i];
    GatherStep(sha, ms, i);
    WeightStep(sha, ms, i);
    DeleteNeeds(sha, objects, roots, m);
    CountStep(roots, b.updates, m.key, TargetOf(sha, m));
    ReadableStep(sha, objects, roots, ms, i);
  }

  lemma ReadableStep(sha: Bytes -> Hash, objects: Objects, roots: Refs, ms: seq<Mutation>, i: nat)
    requires i < |ms| && Readable(sha, objects, roots, ms[..i]) && Doable(objects, roots, ms[i])
    requires ms[i].key !in UpdatesOf(sha, ms[..i]) && Weight(sha, ms[..i + 1]) <= MAX_BATCH_BYTES
    ensures Readable(sha, objects, roots, ms[..i + 1])
  {
    hide Doable, Weight, OnceEach, UpdatesOf;
    UpdateKeys(sha, ms[..i]);
    OnceSnoc(ms[..i], ms[i]);
    assert ms[..i + 1] == ms[..i] + [ms[i]];
  }

  lemma DeleteNeeds(sha: Bytes -> Hash, objects: Objects, roots: Refs, m: Mutation)
    requires Doable(objects, roots, m)
    ensures TargetOf(sha, m).None? ==> m.key in roots
  {
  }

  lemma OnceSnoc(ms: seq<Mutation>, m: Mutation)
    requires OnceEach(ms) && forall x :: x in ms ==> x.key != m.key
    ensures OnceEach(ms + [m])
  {
    forall i, j | 0 <= i < j < |ms + [m]| ensures (ms + [m])[i].key != (ms + [m])[j].key {
      if j == |ms| { assert ms[i] in ms; }
    }
  }

  /** Reads the mutations once, checking each and counting as it goes. */
  method Gather(sha: Bytes -> Hash, objects: Objects, roots: Refs, ms: seq<Mutation>) returns (result: Option<Batch>)
    ensures result.Some? <==> Readable(sha, objects, roots, ms)
    ensures result.Some? ==> Collected(sha, objects, roots, ms, result.value)
  {
    hide ValuesOf, Weight, UpdatesOf, ApplyChanges, Readable;
    var b := Batch({}, map[], map[], 0, |roots|);
    assert Collected(sha, objects, roots, ms[..0], b) by { NothingGathered(sha, objects, roots, ms); }
    for i := 0 to |ms|
      invariant Collected(sha, objects, roots, ms[..i], b)
    {
      var m := ms[i];
      if |m.key| == 0 || |m.key| > 1024 || m.key in b.seen || (m.value.Some? && m.reference.Some?) {
        NotReadable(sha, objects, roots, ms, i);
        return None;
      }
      if m.reference.Some? {
        if m.reference.value !in objects { NotReadable(sha, objects, roots, ms, i); return None; }
      } else if m.value.Some? {
        if |m.value.value| > MAX_OBJECT { NotReadable(sha, objects, roots, ms, i); return None; }
      } else if m.key !in roots {
        NotReadable(sha, objects, roots, ms, i);
        return None;
      }
      var next := Extended(sha, b, m, m.key in roots);
      WeightStep(sha, ms, i);
      if next.total > MAX_BATCH_BYTES { NotReadable(sha, objects, roots, ms, i); return None; }
      BatchStep(sha, objects, roots, ms, i, b);
      b := next;
    }
    assert ms[..|ms|] == ms;
    return Some(b);
  }

  lemma NothingGathered(sha: Bytes -> Hash, objects: Objects, roots: Refs, ms: seq<Mutation>)
    ensures Collected(sha, objects, roots, ms[..0], Batch({}, map[], map[], 0, |roots|))
  {
    ApplyNone(roots);
  }

  lemma WeightStep(sha: Bytes -> Hash, ms: seq<Mutation>, i: nat)
    requires i < |ms|
    ensures var m := ms[i];
      Weight(sha, ms[..i + 1]) == Weight(sha, ms[..i]) +
        (if m.value.Some? && m.reference.None? && sha(m.value.value) !in ValuesOf(sha, ms[..i])
         then |m.value.value|
         else 0)
  {
    hide ValuesOf;
    assert ms[..i + 1][..i] == ms[..i];
  }

  // ---- After a batch ----

  lemma {:induction false} ValuesHashed(sha: Bytes -> Hash, ms: seq<Mutation>)
    ensures Hashed(sha, ValuesOf(sha, ms))
  {
    if ms != [] { ValuesHashed(sha, ms[..|ms| - 1]); }
  }

  /** Every new target is stored, by the batch or before it. */
  lemma {:induction false} TargetsStored(sha: Bytes -> Hash, objects: Objects, roots: Refs, ms: seq<Mutation>)
    requires forall m :: m in ms ==> Doable(objects, roots, m)
    ensures forall k :: k in UpdatesOf(sha, ms) && UpdatesOf(sha, ms)[k].Some? ==>
      UpdatesOf(sha, ms)[k].value in objects || UpdatesOf(sha, ms)[k].value in ValuesOf(sha, ms)
  {
    if ms != [] {
      var n := |ms| - 1;
      assert ms[n] in ms && forall m :: m in ms[..n] ==> m in ms;
      TargetsStored(sha, objects, roots, ms[..n]);
    }
  }

  /** The objects with a batch's payloads added. */
  function Merged(objects: Objects, values: Objects): (m: Objects)
    ensures m.Keys == objects.Keys + values.Keys
  {
    values + objects
  }

  /** The store's maps and counters; the counters are kept beside the maps. */
  datatype State = State(objects: Objects, roots: Refs, sequence: nat, objectCount: nat, rootCount: nat)

  /** Payloads match their hashes, no root dangles, and the counters are exact. */
  ghost predicate StateOk(sha: Bytes -> Hash, s: State) {
    Hashed(sha, s.objects) && Anchored(s.objects, s.roots) && s.objectCount == |s.objects| &&
    s.rootCount == |s.roots| && s.sequence < U64
  }

  /** What a committed batch leaves. */
  ghost predicate Follows(sha: Bytes -> Hash, s: State, ms: seq<Mutation>, s': State) {
    s'.sequence == s.sequence + 1 && s'.roots == ApplyChanges(s.roots, UpdatesOf(sha, ms)) &&
    s'.objects == Merged(s.objects, ValuesOf(sha, ms))
  }

  method Prepare(sha: Bytes -> Hash, s: State, ms: seq<Mutation>) returns (next: Option<State>)
    requires StateOk(sha, s)
    ensures next.Some? <==> s.sequence < U64 - 1 && Acceptable(sha, s.objects, s.roots, ms)
    ensures next.Some? ==> StateOk(sha, next.value) && Follows(sha, s, ms, next.value)
  {
    hide ValuesOf, Weight, UpdatesOf, ApplyChanges, Doable, Hashed, Anchored, Merged, Agrees, Acceptable, Readable,
         Collected, AllDoable;
    AcceptableIs(sha, s.objects, s.roots, ms);
    if s.sequence == U64 - 1 || |ms| == 0 || |ms| > MAX_MUTATIONS { return None; }
    var gathered := Gather(sha, s.objects, s.roots, ms);
    if gathered.None? { return None; }
    var b := gathered.value;
    CollectedParts(sha, s.objects, s.roots, ms, b);
    var added := NewObjects(s.objects, b.values);
    if added.None? { return None; }
    StoreKeeps(sha, s.objects, s.roots, ms);
    return Some(State(Merged(s.objects, b.values), ApplyChanges(s.roots, b.updates), s.sequence + 1,
                      s.objectCount + added.value, b.roots));
  }

  /** What a sweep leaves: the live objects and the roots not named obsolete. */
  ghost predicate Swept(s: State, live: set<Bytes>, obsolete: seq<Bytes>, s': State) {
    s'.sequence == s.sequence + 1 && s'.objects == Kept(s.objects, live) && s'.roots == s.roots - Elements(obsolete) &&
    s'.objectCount == |s'.objects| && s'.rootCount == s.rootCount - |obsolete|
  }

  ghost predicate Sweepable(s: State, live: set<Bytes>, obsolete: seq<Bytes>) {
    s.sequence < U64 - 1 && live <= s.objects.Keys && Elements(obsolete) <= s.roots.Keys && |obsolete| <= s.rootCount
  }

  /** It does what it is told: the result is sound exactly when no name is repeated and no
      remaining root loses its object. */
  method Sweep(sha: Bytes -> Hash, s: State, live: set<Bytes>, obsolete: seq<Bytes>) returns (next: Option<State>)
    requires StateOk(sha, s)
    ensures next.Some? <==> Sweepable(s, live, obsolete)
    ensures next.Some? ==> Swept(s, live, obsolete, next.value)
    ensures next.Some? ==> (StateOk(sha, next.value) <==> NoRepeats(obsolete) && Spared(s.roots, obsolete, live))
  {
    hide Hashed, Anchored, Kept, Elements, NoRepeats, Spared;
    if s.sequence == U64 - 1 || !(live <= s.objects.Keys) { return None; }
    if !(Elements(obsolete) <= s.roots.Keys) || |obsolete| > s.rootCount { return None; }
    KeptSize(s.objects, live);
    DropRoots(s.roots, obsolete);
    SweepKeeps(sha, s.objects, s.roots, live, obsolete);
    return Some(State(Kept(s.objects, live), s.roots - Elements(obsolete), s.sequence + 1,
                      s.objectCount - |s.objects.Keys - live|, s.rootCount - |obsolete|));
  }

  class Store {
    const sha: Bytes -> Hash
    var state: State
    var poisoned: bool

    ghost predicate Valid()
      reads this
    {
      StateOk(sha, state)
    }

    constructor (hash: Bytes -> Hash)
      ensures Valid() && state == State(map[], map[], 0, 0, 0) && !poisoned && sha == hash
    {
      sha, state, poisoned := hash, State(map[], map[], 0, 0, 0), false;
    }

    /** Commits a batch, or changes nothing; a failed write poisons the store. */
    method Transact(expected: nat, ms: seq<Mutation>, durable: bool) returns (ok: bool)
      requires Valid()
      modifies this
      ensures Valid()
      ensures ok <==>
        !old(poisoned) && expected == old(state).sequence < U64 - 1 &&
        Acceptable(sha, old(state).objects, old(state).roots, ms) && durable
      ensures if ok then Follows(sha, old(state), ms, state) else state == old(state)
      ensures poisoned == (old(poisoned) ||
        (expected == old(state).sequence < U64 - 1 && Acceptable(sha, old(state).objects, old(state).roots, ms) &&
         !durable))
    {
      hide StateOk, Acceptable, Follows;
      if poisoned || expected != state.sequence { return false; }
      var next := Prepare(sha, state, ms);
      if next.None? { return false; }
      if !durable { poisoned := true; return false; }
      state := next.value;
      return true;
    }

    /** Deletes every object outside the marked set, and the given roots. */
    method Collect(expected: nat, live: set<Bytes>, obsolete: seq<Bytes>, durable: bool) returns (removed: Option<nat>)
      requires Valid()
      modifies this
      ensures removed.Some? ==> (Valid() <==> NoRepeats(obsolete) && Spared(old(state).roots, obsolete, live))
      ensures removed.Some? <==>
        !old(poisoned) && expected == old(state).sequence && Sweepable(old(state), live, obsolete) && durable
      ensures removed.Some? ==>
        Swept(old(state), live, obsolete, state) && removed.value == |old(state).objects| - |state.objects|
      ensures removed.None? ==> state == old(state)
      ensures poisoned ==
        (old(poisoned) || (expected == old(state).sequence && Sweepable(old(state), live, obsolete) && !durable))
    {
      hide Hashed, Anchored, NoRepeats, Spared, Elements, Swept, Sweepable;
      if poisoned || expected != state.sequence { return None; }
      var next := Sweep(sha, state, live, obsolete);
      if next.None? { return None; }
      if !durable { poisoned := true; return None; }
      SweptSize(state, live, obsolete, next.value);
      removed := Some(state.objectCount - next.value.objectCount);
      state := next.value;
    }
  }

  lemma SweptSize(s: State, live: set<Bytes>, obsolete: seq<Bytes>, s': State)
    requires Swept(s, live, obsolete, s')
    ensures |s'.objects| <= |s.objects| && s'.objectCount == |s'.objects|
  {
    KeptSize(s.objects, live);
  }

  lemma AcceptableIs(sha: Bytes -> Hash, objects: Objects, roots: Refs, ms: seq<Mutation>)
    ensures Acceptable(sha, objects, roots, ms) <==>
      0 < |ms| <= MAX_MUTATIONS && Readable(sha, objects, roots, ms) && Agrees(objects, ValuesOf(sha, ms))
  {
    hide ValuesOf, Weight, Doable, OnceEach, Agrees;
  }

  lemma CollectedParts(sha: Bytes -> Hash, objects: Objects, roots: Refs, ms: seq<Mutation>, b: Batch)
    requires Collected(sha, objects, roots, ms, b)
    ensures b.values == ValuesOf(sha, ms) && b.updates == UpdatesOf(sha, ms)
    ensures b.roots == |ApplyChanges(roots, b.updates)|
    ensures AllDoable(objects, roots, ms)
  {
    hide ValuesOf, Weight, Doable, OnceEach, UpdatesOf, ApplyChanges;
  }

  ghost predicate AllDoable(objects: Objects, roots: Refs, ms: seq<Mutation>) {
    forall m :: m in ms ==> Doable(objects, roots, m)
  }

  lemma DropRoots(roots: Refs, obsolete: seq<Bytes>)
    requires Elements(obsolete) <= roots.Keys
    ensures |roots| == |roots - Elements(obsolete)| + |obsolete| <==> NoRepeats(obsolete)
  {
    hide NoRepeats;
    var gone := Elements(obsolete);
    ListSize(obsolete);
    assert roots.Keys == (roots - gone).Keys + gone;
  }

  lemma {:induction false} ListSize(s: seq<Bytes>)
    ensures |Elements(s)| <= |s| && (|Elements(s)| == |s| <==> NoRepeats(s))
  {
    if s != [] {
      ListSize(s[1..]);
      assert s == [s[0]] + s[1..];
      assert Elements(s) == {s[0]} + Elements(s[1..]);
      if s[0] in s[1..] {
        assert Elements(s) == Elements(s[1..]);
        var i :| 0 <= i < |s[1..]| && s[1..][i] == s[0];
        assert s[0] == s[i + 1];
      } else {
        assert NoRepeats(s) <==> NoRepeats(s[1..]) by { RepeatsTail(s); }
      }
    }
  }

  lemma RepeatsTail(s: seq<Bytes>)
    requires s != [] && s[0] !in s[1..]
    ensures NoRepeats(s) <==> NoRepeats(s[1..])
  {
    if NoRepeats(s[1..]) {
      forall i, j | 0 <= i < j < |s| ensures s[i] != s[j] {
        assert s[j] == s[1..][j - 1];
        if i > 0 { assert s[i] == s[1..][i - 1]; }
      }
    }
    if NoRepeats(s) {
      forall i, j | 0 <= i < j < |s[1..]| ensures s[1..][i] != s[1..][j] { assert s[i + 1] != s[j + 1]; }
    }
  }

  lemma SweepKeeps(sha: Bytes -> Hash, objects: Objects, roots: Refs, live: set<Bytes>, obsolete: seq<Bytes>)
    requires Hashed(sha, objects) && Anchored(objects, roots)
    ensures Hashed(sha, Kept(objects, live))
    ensures Anchored(Kept(objects, live), roots - Elements(obsolete)) <==> Spared(roots, obsolete, live)
  {
    if Anchored(Kept(objects, live), roots - Elements(obsolete)) {
      forall k | k in roots && k !in obsolete ensures roots[k] in live { assert k in roots - Elements(obsolete); }
    }
  }

  lemma StoreKeeps(sha: Bytes -> Hash, objects: Objects, roots: Refs, ms: seq<Mutation>)
    requires Hashed(sha, objects) && Anchored(objects, roots) && AllDoable(objects, roots, ms)
    ensures Hashed(sha, Merged(objects, ValuesOf(sha, ms)))
    ensures Anchored(Merged(objects, ValuesOf(sha, ms)), ApplyChanges(roots, UpdatesOf(sha, ms)))
  {
    hide ValuesOf, UpdatesOf, Doable, ApplyChanges;
    ValuesHashed(sha, ms);
    TargetsStored(sha, objects, roots, ms);
  }

  lemma MergedSize(objects: Objects, values: Objects)
    ensures |Merged(objects, values)| == |objects| + |values.Keys - objects.Keys|
  {
    hide Merged;
    assert Merged(objects, values).Keys == objects.Keys + (values.Keys - objects.Keys);
  }

  /** Checks the payloads against what is stored and counts the ones that are new. */
  method NewObjects(objects: Objects, values: Objects) returns (added: Option<nat>)
    ensures added.Some? <==> Agrees(objects, values)
    ensures added.Some? ==> |Merged(objects, values)| == |objects| + added.value
  {
    hide Merged;
    if exists h :: h in values && h in objects && objects[h] != values[h] { return None; }
    MergedSize(objects, values);
    return Some(|values.Keys - objects.Keys|);
  }

  /** Refs that stay refer to objects that stay. */
  ghost predicate Spared(roots: Refs, obsolete: seq<Bytes>, live: set<Bytes>) {
    forall k :: k in roots && k !in obsolete ==> roots[k] in live
  }

  function Kept(objects: Objects, live: set<Bytes>): Objects {
    map h | h in objects && h in live :: objects[h]
  }

  lemma KeptSize(objects: Objects, live: set<Bytes>)
    ensures |objects| == |Kept(objects, live)| + |objects.Keys - live|
  {
    assert objects.Keys == Kept(objects, live).Keys + (objects.Keys - live);
  }

}
