/** From API calls to batches: `put` and `transact` (daemon/journal.cpp). */
module JournalWriter {
  import opened Bytes
  import opened JournalCodec
  import opened JournalReplay
  import opened JournalLog
  import opened JournalTx

  /** The value behind an index entry, when the record there checks out. */
  function ReadAt(d: Digest, body: Bytes, loc: Location, txn: nat, id: Hash): Option<Bytes> {
    if loc.at + loc.length > |body| then None
    else
      match ReadRecord(d, body, loc.at, loc.at + loc.length)
      case Bad => None
      case Torn => None
      case Got(r, len) =>
        var p := r.payload;
        if r.kind == DATA && len == loc.length && 0 < r.txn <= txn && r.oid == id &&
           4 <= |p| <= MAX_PAYLOAD + 4 && Num(p[..2]) == 4 && Num(p[2..4]) == 0 && ObjectHash(d, p[4..]) == id
        then Some(p[4..]) else None
  }

  function ReadObject(d: Digest, body: Bytes, mem: Mem, id: Hash): Option<Bytes> {
    if id in mem.objects then ReadAt(d, body, mem.objects[id], mem.txn, id) else None
  }

  /** What `transact` accumulates while it validates its mutations. */
  datatype Gathered = Gathered(changes: Changes, values: map<Hash, Bytes>, total: nat, references: bool)

  const NOTHING: Gathered := Gathered(map[], map[], 0, false)

  function Gather(d: Digest, body: Bytes, mem: Mem, m: Mutation, g: Gathered): Option<Gathered> {
    if !(0 < |m.key| <= 1024) || m.key in g.changes || (m.value.Some? && m.reference.Some?) then None
    else if m.reference.Some? then
      if ReadObject(d, body, mem, m.reference.value).None? then None
      else Some(g.(changes := g.changes[m.key := Some(m.reference.value)], references := true))
    else if m.value.Some? then
      var id := ObjectHash(d, m.value.value);
      var total := if id in g.values then g.total else g.total + |m.value.value|;
      if |m.value.value| > MAX_PAYLOAD || total > 1048576 then None
      else Some(g.(changes := g.changes[m.key := Some(id)], total := total,
                   values := if id in g.values then g.values else g.values[id := m.value.value]))
    else if m.key !in mem.roots then None
    else Some(g.(changes := g.changes[m.key := None]))
  }

  function GatherAll(d: Digest, body: Bytes, mem: Mem, muts: seq<Mutation>): Option<Gathered> {
    if muts == [] then Some(NOTHING)
    else
      match GatherAll(d, body, mem, muts[..|muts| - 1])
      case None => None
      case Some(g) => Gather(d, body, mem, muts[|muts| - 1], g)
  }

  // ---- What the gathered batch means ----

  function Effect(d: Digest, m: Mutation): Option<Hash> {
    if m.reference.Some? then m.reference
    else if m.value.Some? then Some(ObjectHash(d, m.value.value))
    else None
  }

  /** An accepted list names each key once, and its change list is exactly the
      effects the mutations ask for. */
  lemma {:induction false} GatherMeaning(d: Digest, body: Bytes, mem: Mem, muts: seq<Mutation>)
    requires GatherAll(d, body, mem, muts).Some?
    ensures OnceEach(muts) && Meant(d, muts, GatherAll(d, body, mem, muts).value.changes)
  {
    hide ReadObject, ObjectHash, Effect, Gather, OnceEach, Meant;
    if muts != [] {
      var n := |muts| - 1;
      GatherMeaning(d, body, mem, muts[..n]);
      var before := GatherAll(d, body, mem, muts[..n]).value;
      GatherOne(d, body, mem, muts[n], before);
      MeaningSnoc(d, muts[..n], muts[n], before.changes);
      assert muts == muts[..n] + [muts[n]];
    } else {
      NothingMeant(d);
    }
  }

  lemma NothingMeant(d: Digest)
    ensures OnceEach([]) && Meant(d, [], map[])
  {
  }

  lemma GatherOne(d: Digest, body: Bytes, mem: Mem, m: Mutation, g: Gathered)
    requires Gather(d, body, mem, m, g).Some?
    ensures m.key !in g.changes && Gather(d, body, mem, m, g).value.changes == g.changes[m.key := Effect(d, m)]
  {
    hide ReadObject, ObjectHash;
  }

  /** The changes are the mutations' effects, and nothing else. */
  ghost predicate Meant(d: Digest, muts: seq<Mutation>, changes: Changes) {
    (forall m :: m in muts ==> m.key in changes && changes[m.key] == Effect(d, m)) &&
    (forall k :: k in changes ==> exists m :: m in muts && m.key == k)
  }

  lemma MeaningSnoc(d: Digest, muts: seq<Mutation>, m: Mutation, changes: Changes)
    requires OnceEach(muts) && m.key !in changes && Meant(d, muts, changes)
    ensures OnceEach(muts + [m]) && Meant(d, muts + [m], changes[m.key := Effect(d, m)])
  {
    hide Effect;
    var all := muts + [m];
    forall i | 0 <= i < |muts| ensures muts[i].key != m.key { assert muts[i] in muts; }
    forall k | k in changes ensures exists x :: x in all && x.key == k {
      var x :| x in muts && x.key == k;
      assert x in all;
    }
    assert m in all;
  }

  // ---- Which batches are accepted ----

  predicate Puts(m: Mutation) {
    m.value.Some? && m.reference.None?
  }

  /** One mutation is well formed and can be done: what it refers to is indexed and reads
      back, what it stores fits, what it deletes is there. */
  predicate Doable(d: Digest, body: Bytes, mem: Mem, m: Mutation) {
    0 < |m.key| <= 1024 && !(m.value.Some? && m.reference.Some?) &&
    (m.reference.Some? ==>
      m.reference.value in mem.objects &&
      ReadAt(d, body, mem.objects[m.reference.value], mem.txn, m.reference.value).Some?) &&
    (m.value.Some? ==> |m.value.value| <= MAX_PAYLOAD) &&
    (m.value.None? && m.reference.None? ==> m.key in mem.roots)
  }

  /** The mutation stores a value that none before it stores. */
  ghost predicate StoresNew(d: Digest, muts: seq<Mutation>, i: nat) {
    i < |muts| && Puts(muts[i]) &&
    forall j :: 0 <= j < i && Puts(muts[j]) ==> ObjectHash(d, muts[j].value.value) != ObjectHash(d, muts[i].value.value)
  }

  /** The bytes of the distinct values. */
  ghost function NewBytes(d: Digest, muts: seq<Mutation>): nat {
    if muts == [] then 0
    else
      var n := |muts| - 1;
      NewBytes(d, muts[..n]) + if StoresNew(d, muts, n) then |muts[n].value.value| else 0
  }

  ghost predicate Acceptable(d: Digest, body: Bytes, mem: Mem, muts: seq<Mutation>) {
    OnceEach(muts) && (forall m :: m in muts ==> Doable(d, body, mem, m)) && NewBytes(d, muts) <= 1048576
  }

  ghost predicate AllThere(d: Digest, muts: seq<Mutation>, values: map<Hash, Bytes>) {
    forall m :: m in muts && Puts(m) ==> ObjectHash(d, m.value.value) in values
  }

  ghost predicate AllAsked(d: Digest, muts: seq<Mutation>, values: map<Hash, Bytes>) {
    forall h :: h in values ==> ObjectHash(d, values[h]) == h && PutBySome(muts, values[h])
  }

  ghost predicate PutBySome(muts: seq<Mutation>, v: Bytes) {
    exists m :: m in muts && Puts(m) && m.value.value == v
  }

  ghost predicate Refers(muts: seq<Mutation>) {
    exists m :: m in muts && m.reference.Some?
  }

  /** The gathered values are the distinct ones stored, by hash; the flag is set by a reference. */
  ghost predicate Holds(d: Digest, muts: seq<Mutation>, g: Gathered) {
    AllThere(d, muts, g.values) && AllAsked(d, muts, g.values) && g.total == NewBytes(d, muts) &&
    (g.references <==> Refers(muts))
  }

  lemma NothingHeld(d: Digest)
    ensures Holds(d, [], NOTHING)
  {
  }

  /** Whether the next mutation stores a new value shows in the values gathered so far. */
  lemma NewShows(d: Digest, muts: seq<Mutation>, g: Gathered)
    requires muts != [] && Holds(d, muts[..|muts| - 1], g) && Puts(muts[|muts| - 1])
    ensures StoresNew(d, muts, |muts| - 1) <==> ObjectHash(d, muts[|muts| - 1].value.value) !in g.values
  {
    hide ObjectHash, NewBytes;
    var n := |muts| - 1;
    var id := ObjectHash(d, muts[n].value.value);
    if id in g.values {
      assert PutBySome(muts[..n], g.values[id]);
      var m :| m in muts[..n] && Puts(m) && m.value.value == g.values[id];
      var j :| 0 <= j < n && muts[j] == m;
    }
    forall j | 0 <= j < n && Puts(muts[j]) ensures muts[j] in muts[..n] { assert muts[..n][j] == muts[j]; }
  }

  lemma PutSnoc(muts: seq<Mutation>, m: Mutation, v: Bytes)
    ensures PutBySome(muts + [m], v) <==> PutBySome(muts, v) || (Puts(m) && m.value.value == v)
  {
    if x :| x in muts && Puts(x) && x.value.value == v { assert x in muts + [m]; }
    if Puts(m) && m.value.value == v { assert m in muts + [m]; }
  }

  lemma RefersSnoc(muts: seq<Mutation>, m: Mutation)
    ensures Refers(muts + [m]) <==> Refers(muts) || m.reference.Some?
  {
    if x :| x in muts && x.reference.Some? { assert x in muts + [m]; }
    if m.reference.Some? { assert m in muts + [m]; }
  }

  lemma AskedSnoc(d: Digest, muts: seq<Mutation>, m: Mutation, values: map<Hash, Bytes>, values': map<Hash, Bytes>)
    requires AllThere(d, muts, values) && AllAsked(d, muts, values)
    requires
      var id := if Puts(m) then ObjectHash(d, m.value.value) else NO_HASH;
      values' == if Puts(m) && id !in values then values[id := m.value.value] else values
    ensures AllThere(d, muts + [m], values') && AllAsked(d, muts + [m], values')
  {
    hide ObjectHash, PutBySome;
    forall h | h in values' ensures ObjectHash(d, values'[h]) == h && PutBySome(muts + [m], values'[h]) {
      PutSnoc(muts, m, values'[h]);
    }
  }

  /** What one more mutation does to the values, the total and the flag. */
  lemma GatherStep(d: Digest, body: Bytes, mem: Mem, m: Mutation, g: Gathered)
    requires Gather(d, body, mem, m, g).Some?
    ensures
      var g' := Gather(d, body, mem, m, g).value;
      var id := if Puts(m) then ObjectHash(d, m.value.value) else NO_HASH;
      var isNew := Puts(m) && id !in g.values;
      g'.values == (if isNew then g.values[id := m.value.value] else g.values) &&
      g'.total == g.total + (if isNew then |m.value.value| else 0) &&
      g'.references == (g.references || m.reference.Some?)
  {
    hide ObjectHash, ReadObject;
  }

  lemma HoldsSnoc(d: Digest, body: Bytes, mem: Mem, muts: seq<Mutation>, g: Gathered)
    requires muts != [] && Holds(d, muts[..|muts| - 1], g) && Gather(d, body, mem, muts[|muts| - 1], g).Some?
    ensures Holds(d, muts, Gather(d, body, mem, muts[|muts| - 1], g).value)
  {
    hide ObjectHash, Gather, AllThere, AllAsked, Refers, StoresNew;
    var n := |muts| - 1;
    var m, g' := muts[n], Gather(d, body, mem, muts[n], g).value;
    assert muts == muts[..n] + [m];
    GatherStep(d, body, mem, m, g);
    AskedSnoc(d, muts[..n], m, g.values, g'.values);
    RefersSnoc(muts[..n], m);
    if Puts(m) { NewShows(d, muts, g); } else { NotNew(d, muts); }
  }

  /** What the gathered batch stores. */
  lemma {:induction false} GatherHolds(d: Digest, body: Bytes, mem: Mem, muts: seq<Mutation>)
    requires GatherAll(d, body, mem, muts).Some?
    ensures Holds(d, muts, GatherAll(d, body, mem, muts).value)
  {
    hide Gather, Holds;
    if muts != [] {
      GatherHolds(d, body, mem, muts[..|muts| - 1]);
      HoldsSnoc(d, body, mem, muts, GatherAll(d, body, mem, muts[..|muts| - 1]).value);
    } else {
      NothingHeld(d);
    }
  }

  /** One more mutation goes through exactly when it can be done, is new and leaves the
      values within their limit. */
  lemma GatherGoes(d: Digest, body: Bytes, mem: Mem, muts: seq<Mutation>, g: Gathered)
    requires muts != [] && Holds(d, muts[..|muts| - 1], g) && g.total <= 1048576
    ensures Gather(d, body, mem, muts[|muts| - 1], g).Some? <==>
      Doable(d, body, mem, muts[|muts| - 1]) && muts[|muts| - 1].key !in g.changes && NewBytes(d, muts) <= 1048576
  {
    hide ObjectHash, ReadAt, Holds, StoresNew;
    var m := muts[|muts| - 1];
    HeldTotal(d, muts[..|muts| - 1], g);
    if Puts(m) { NewShows(d, muts, g); } else { NotNew(d, muts); }
  }

  lemma HeldTotal(d: Digest, muts: seq<Mutation>, g: Gathered)
    requires Holds(d, muts, g)
    ensures g.total == NewBytes(d, muts)
  {
    hide NewBytes;
  }

  lemma NotNew(d: Digest, muts: seq<Mutation>)
    requires muts != [] && !Puts(muts[|muts| - 1])
    ensures !StoresNew(d, muts, |muts| - 1)
  {
  }

  lemma AcceptableFront(d: Digest, body: Bytes, mem: Mem, muts: seq<Mutation>)
    requires muts != []
    ensures
      var n := |muts| - 1;
      Acceptable(d, body, mem, muts) <==>
        Acceptable(d, body, mem, muts[..n]) && Doable(d, body, mem, muts[n]) &&
        (forall x :: x in muts[..n] ==> x.key != muts[n].key) && NewBytes(d, muts) <= 1048576
  {
    hide Doable, StoresNew, OnceEach;
    var n := |muts| - 1;
    OnceSnoc(muts[..n], muts[n]);
    assert muts == muts[..n] + [muts[n]];
  }

  lemma OnceSnoc(muts: seq<Mutation>, m: Mutation)
    ensures OnceEach(muts + [m]) <==> OnceEach(muts) && forall x :: x in muts ==> x.key != m.key
  {
    var all := muts + [m];
    if OnceEach(all) {
      forall i, j | 0 <= i < j < |muts| ensures muts[i].key != muts[j].key { assert all[i].key != all[j].key; }
      forall x | x in muts ensures x.key != m.key {
        var j :| 0 <= j < |muts| && muts[j] == x;
        assert all[j].key != all[|muts|].key;
      }
    }
    if OnceEach(muts) && forall x :: x in muts ==> x.key != m.key {
      forall i, j | 0 <= i < j < |all| ensures all[i].key != all[j].key { assert all[i] in muts; }
    }
  }

  /** A batch is gathered exactly when every key is legal and named once, every mutation can
      be done on the state before it, and its distinct values total at most 1 MiB. */
  lemma {:induction false} GatherAccepts(d: Digest, body: Bytes, mem: Mem, muts: seq<Mutation>)
    ensures GatherAll(d, body, mem, muts).Some? <==> Acceptable(d, body, mem, muts)
  {
    hide Gather, Doable, Holds, OnceEach, NewBytes;
    if muts == [] {
      NothingMeant(d);
      NothingHeld(d);
      HeldTotal(d, [], NOTHING);
    } else {
      var n := |muts| - 1;
      var front := muts[..n];
      GatherAccepts(d, body, mem, front);
      AcceptableFront(d, body, mem, muts);
      if GatherAll(d, body, mem, front).Some? {
        var g := GatherAll(d, body, mem, front).value;
        GatherHolds(d, body, mem, front);
        HeldTotal(d, front, g);
        GatherGoes(d, body, mem, muts, g);
        GatherMeaning(d, body, mem, front);
        KeysMeant(d, front, g.changes, muts[n].key);
      }
    }
  }

  lemma KeysMeant(d: Digest, muts: seq<Mutation>, changes: Changes, k: Bytes)
    requires Meant(d, muts, changes)
    ensures k !in changes <==> forall x :: x in muts ==> x.key != k
  {
    hide Effect;
  }

  /** The roots after a batch: each mutation's key as it asks, every other as before. */
  ghost predicate Applied(d: Digest, muts: seq<Mutation>, roots: Refs, roots': Refs) {
    (forall m :: m in muts ==>
      (m.reference.Some? ==> m.key in roots' && roots'[m.key] == m.reference.value) &&
      (Puts(m) ==> m.key in roots' && roots'[m.key] == ObjectHash(d, m.value.value)) &&
      (m.reference.None? && m.value.None? ==> m.key !in roots')) &&
    (forall k :: (forall m :: m in muts ==> m.key != k) ==>
      (k in roots' <==> k in roots) && (k in roots ==> roots'[k] == roots[k]))
  }

  lemma MeantApplied(d: Digest, muts: seq<Mutation>, changes: Changes, roots: Refs)
    requires Meant(d, muts, changes)
    ensures Applied(d, muts, roots, ApplyChanges(roots, changes))
  {
    hide ObjectHash, ApplyChanges;
    forall k | forall m :: m in muts ==> m.key != k ensures k !in changes { }
  }

  /** Every change is possible on the state before the batch. */
  ghost predicate Possible(mem: Mem, changes: Changes, values: set<Hash>, references: bool) {
    forall k :: k in changes ==>
      0 < |k| <= 1024 &&
      match changes[k] case None => k in mem.roots case Some(id) => id in values || (references && id in mem.objects)
  }

  ghost predicate Filed(d: Digest, values: map<Hash, Bytes>) {
    forall id :: id in values ==> ObjectHash(d, values[id]) == id && |values[id]| <= MAX_PAYLOAD
  }

  ghost predicate Covered(changes: Changes, values: set<Hash>) {
    forall id :: id in values ==> exists k :: k in changes && changes[k] == Some(id)
  }

  /** What the encoder relies on. */
  ghost predicate Encodables(d: Digest, mem: Mem, g: Gathered) {
    Possible(mem, g.changes, g.values.Keys, g.references) && Filed(d, g.values) &&
    Covered(g.changes, g.values.Keys) && |g.values| <= |g.changes|
  }

  lemma MapGrows<K, V>(m: map<K, V>, k: K, v: V)
    requires k !in m
    ensures |m[k := v]| == |m| + 1
  {
    assert m[k := v].Keys == m.Keys + {k};
  }

  lemma CoveredGrows(changes: Changes, values: set<Hash>, k: Bytes, c: Option<Hash>, more: set<Hash>)
    requires Covered(changes, values) && k !in changes
    requires more == values || (c.Some? && more == values + {c.value})
    ensures Covered(changes[k := c], more)
  {
    var after := changes[k := c];
    assert after[k] == c;
    forall id | id in more ensures exists x :: x in after && after[x] == Some(id) {
      if id in values {
        var x :| x in changes && changes[x] == Some(id);
        assert after[x] == Some(id);
      }
    }
  }

  lemma PossibleGrows(mem: Mem, changes: Changes, values: set<Hash>, refs: bool, k: Bytes, c: Option<Hash>,
                      more: set<Hash>, refs': bool)
    requires Possible(mem, changes, values, refs) && values <= more && (refs ==> refs') && 0 < |k| <= 1024
    requires match c case None => k in mem.roots case Some(id) => id in more || (refs' && id in mem.objects)
    ensures Possible(mem, changes[k := c], more, refs')
  {
  }

  lemma EntryKeeps(d: Digest, mem: Mem, g: Gathered, k: Bytes, c: Option<Hash>, v: Bytes, h: Gathered)
    requires Encodables(d, mem, g) && k !in g.changes && 0 < |k| <= 1024
    requires h.changes == g.changes[k := c] && (g.references ==> h.references)
    requires c.None? ==> k in mem.roots
    requires c.Some? ==> c.value in h.values || (h.references && c.value in mem.objects)
    requires h.values == g.values ||
             (c.Some? && c.value !in g.values && h.values == g.values[c.value := v] &&
              ObjectHash(d, v) == c.value && |v| <= MAX_PAYLOAD)
    ensures Encodables(d, mem, h) && |h.changes| == |g.changes| + 1
  {
    hide ObjectHash, Covered, Possible;
    MapGrows(g.changes, k, c);
    if h.values != g.values {
      MapGrows(g.values, c.value, v);
      assert h.values.Keys == g.values.Keys + {c.value};
    }
    assert Filed(d, h.values);
    hide Filed;
    PossibleGrows(mem, g.changes, g.values.Keys, g.references, k, c, h.values.Keys, h.references);
    CoveredGrows(g.changes, g.values.Keys, k, c, h.values.Keys);
  }

  lemma GatherKeeps(d: Digest, body: Bytes, mem: Mem, m: Mutation, g: Gathered)
    requires Encodables(d, mem, g) && Gather(d, body, mem, m, g).Some?
    ensures Encodables(d, mem, Gather(d, body, mem, m, g).value)
    ensures |Gather(d, body, mem, m, g).value.changes| == |g.changes| + 1
  {
    hide ReadAt, ObjectHash, Encodables;
    var v := if m.value.Some? then m.value.value else [];
    EntryKeeps(d, mem, g, m.key, Effect(d, m), v, Gather(d, body, mem, m, g).value);
  }

  lemma {:induction false} GatherAllKeeps(d: Digest, body: Bytes, mem: Mem, muts: seq<Mutation>)
    requires GatherAll(d, body, mem, muts).Some?
    ensures Encodables(d, mem, GatherAll(d, body, mem, muts).value)
    ensures |GatherAll(d, body, mem, muts).value.changes| == |muts|
  {
    hide Gather, Encodables;
    if muts == [] {
      EmptyEncodables(d, mem);
    } else {
      GatherAllKeeps(d, body, mem, muts[..|muts| - 1]);
      GatherKeeps(d, body, mem, muts[|muts| - 1], GatherAll(d, body, mem, muts[..|muts| - 1]).value);
    }
  }

  lemma EmptyEncodables(d: Digest, mem: Mem)
    ensures Encodables(d, mem, NOTHING)
  {
  }

  // ---- The prepare payload ----

  function EncodeEntry(key: Bytes, change: Option<Hash>): (b: Bytes)
    ensures |b| == 40 + |key|
  {
    Le(if change.Some? then 1 else 2, 4) + Le(|key|, 4) + key + if change.Some? then change.value else NO_HASH
  }

  function EncodeEntries(keys: seq<Bytes>, changes: Changes): Bytes
    requires forall k :: k in keys ==> k in changes
  {
    if keys == [] then [] else EncodeEntry(keys[0], changes[keys[0]]) + EncodeEntries(keys[1..], changes)
  }

  lemma FourParts(p: Bytes, at: nat, a: Bytes, b: Bytes, c: Bytes, e: Bytes)
    requires |a| == |b| == 4 && |e| == 32 && at + 40 + |c| <= |p| && p[at..at + 40 + |c|] == a + b + c + e
    ensures p[at..at + 4] == a && p[at + 4..at + 8] == b
    ensures p[at + 8..at + 8 + |c|] == c && p[at + 8 + |c|..at + 40 + |c|] == e
  {
    var whole := a + b + c + e;
    assert whole[0..4] == a && whole[4..8] == b;
    assert whole[8..8 + |c|] == c && whole[8 + |c|..40 + |c|] == e;
    SliceOfSlice(p, at, at + 40 + |c|, 0, 4);
    SliceOfSlice(p, at, at + 40 + |c|, 4, 8);
    SliceOfSlice(p, at, at + 40 + |c|, 8, 8 + |c|);
    SliceOfSlice(p, at, at + 40 + |c|, 8 + |c|, 40 + |c|);
  }

  lemma EntryParts(p: Bytes, at: nat, key: Bytes, change: Option<Hash>)
    requires at + 40 + |key| <= |p| && p[at..at + 40 + |key|] == EncodeEntry(key, change) && |key| < U32
    ensures Num(p[at..at + 4]) == (if change.Some? then 1 else 2) && Num(p[at + 4..at + 8]) == |key|
    ensures p[at + 8..at + 8 + |key|] == key
    ensures p[at + 8 + |key|..at + 40 + |key|] == if change.Some? then change.value else NO_HASH
  {
    var op := if change.Some? then 1 else 2;
    var id := if change.Some? then change.value else NO_HASH;
    FourParts(p, at, Le(op, 4), Le(|key|, 4), key, id);
    hide *;
    FitsU32(op);
    FitsU32(|key|);
  }

  /** The parser accepts one encoded entry and moves on to the next. */
  lemma EntryParsed(p: Bytes, at: nat, count: nat, previous: Option<Bytes>, mem: Mem, known: set<Hash>, acc: Changes,
                    key: Bytes, change: Option<Hash>)
    requires at + 40 + |key| <= |p| && p[at..at + 40 + |key|] == EncodeEntry(key, change) && count > 0
    requires 0 < |key| <= 1024 && (previous.Some? ==> Less(previous.value, key))
    requires if change.Some? then change.value in known else key in mem.roots
    ensures ParseEntries(p, at, count, previous, mem, known, acc) ==
            ParseEntries(p, at + 40 + |key|, count - 1, Some(key), mem, known, acc[key := change])
  {
    EntryParts(p, at, key, change);
    hide Less, Num, EncodeEntry;
  }

  /** Keys in order after `previous`, each of them a possible change. */
  ghost predicate Listable(keys: seq<Bytes>, changes: Changes, previous: Option<Bytes>, mem: Mem, known: set<Hash>) {
    Sorted(keys) && (previous.Some? && keys != [] ==> Less(previous.value, keys[0])) &&
    (forall k :: k in keys ==> k in changes && 0 < |k| <= 1024) &&
    (forall k :: k in keys ==> if changes[k].Some? then changes[k].value in known else k in mem.roots)
  }

  lemma ListableRest(keys: seq<Bytes>, changes: Changes, previous: Option<Bytes>, mem: Mem, known: set<Hash>)
    requires keys != [] && Listable(keys, changes, previous, mem, known)
    ensures Listable(keys[1..], changes, Some(keys[0]), mem, known)
  {
    hide Less;
  }

  function Picked(keys: seq<Bytes>, changes: Changes): Changes {
    map k | k in keys && k in changes :: changes[k]
  }

  lemma PickedStep(keys: seq<Bytes>, changes: Changes, acc: Changes)
    requires keys != [] && keys[0] in changes
    ensures acc[keys[0] := changes[keys[0]]] + Picked(keys[1..], changes) == acc + Picked(keys, changes)
  {
    assert keys == [keys[0]] + keys[1..];
  }

  lemma PickedAll(keys: seq<Bytes>, changes: Changes)
    requires forall k :: k in keys <==> k in changes
    ensures map[] + Picked(keys, changes) == changes
  {
  }

  lemma ListableFirst(keys: seq<Bytes>, changes: Changes, previous: Option<Bytes>, mem: Mem, known: set<Hash>)
    requires keys != [] && Listable(keys, changes, previous, mem, known)
    ensures var k := keys[0];
            k in changes && 0 < |k| <= 1024 && (previous.Some? ==> Less(previous.value, k)) &&
            if changes[k].Some? then changes[k].value in known else k in mem.roots
  {
    hide Less, Sorted;
  }

  lemma EntriesFirst(p: Bytes, at: nat, keys: seq<Bytes>, changes: Changes)
    requires keys != [] && forall k :: k in keys ==> k in changes
    requires at <= |p| && p[at..] == EncodeEntries(keys, changes)
    ensures var n := 40 + |keys[0]|;
            at + n <= |p| && p[at..at + n] == EncodeEntry(keys[0], changes[keys[0]]) &&
            p[at + n..] == EncodeEntries(keys[1..], changes)
  {
    hide EncodeEntry;
    var n := 40 + |keys[0]|;
    SliceOfSlice(p, at, |p|, 0, n);
    SliceOfSlice(p, at, |p|, n, |p| - at);
  }

  lemma {:induction false} EntriesParsed(p: Bytes, at: nat, keys: seq<Bytes>, changes: Changes, previous: Option<Bytes>,
                                         mem: Mem, known: set<Hash>, acc: Changes)
    requires Listable(keys, changes, previous, mem, known) && forall k :: k in keys ==> k in changes
    requires at <= |p| && p[at..] == EncodeEntries(keys, changes)
    ensures ParseEntries(p, at, |keys|, previous, mem, known, acc) ==
            Some((|p|, acc + Picked(keys, changes)))
    decreases |keys|
  {
    hide *;
    if keys == [] {
      EntriesNone(p, at, keys, changes, previous, mem, known, acc);
    } else {
      ListableFirst(keys, changes, previous, mem, known);
      ListableRest(keys, changes, previous, mem, known);
      EntriesFirst(p, at, keys, changes);
      PickedStep(keys, changes, acc);
      var k := keys[0];
      EntryParsed(p, at, |keys|, previous, mem, known, acc, k, changes[k]);
      EntriesParsed(p, at + 40 + |k|, keys[1..], changes, Some(k), mem, known, acc[k := changes[k]]);
    }
  }

  lemma EntriesNone(p: Bytes, at: nat, keys: seq<Bytes>, changes: Changes, previous: Option<Bytes>, mem: Mem,
                    known: set<Hash>, acc: Changes)
    requires keys == [] && at <= |p| && p[at..] == EncodeEntries(keys, changes)
    ensures ParseEntries(p, at, |keys|, previous, mem, known, acc) == Some((|p|, acc + Picked(keys, changes)))
  {
    assert acc == acc + Picked(keys, changes);
  }

  ghost function BatchPrepare(mem: Mem, changes: Changes): Bytes {
    mem.chain + Le(mem.txn, 8) + Le(|changes|, 4) + EncodeEntries(SortedKeys(changes.Keys), changes)
  }

  function PutPrepare(d: Digest, mem: Mem, key: Bytes, value: Bytes): Bytes {
    mem.chain + Le(|key|, 4) + key + ObjectHash(d, value)
  }

  /** The values of a batch in the order of their identities. */
  ghost function ValueList(values: map<Hash, Bytes>): (vs: seq<Bytes>)
    ensures |vs| == |values|
  {
    var ids := SortedHashes(values.Keys);
    seq(|ids|, i requires 0 <= i < |ids| => values[ids[i]])
  }

  lemma ValueListFacts(d: Digest, values: map<Hash, Bytes>)
    requires Filed(d, values)
    ensures Distinct(d, ValueList(values)) && Hashes(d, ValueList(values)) == values.Keys
    ensures forall i :: 0 <= i < |ValueList(values)| ==> |ValueList(values)[i]| <= MAX_PAYLOAD
  {
    hide ObjectHash, SortedHashes, Less;
    var ids, vs := SortedHashes(values.Keys), ValueList(values);
    forall i | 0 <= i < |vs| ensures ObjectHash(d, vs[i]) == ids[i] && |vs[i]| <= MAX_PAYLOAD {
      assert ids[i] in values;
    }
    forall i, j | 0 <= i < j < |vs| ensures ids[i] != ids[j] {
      LessIrreflexive(ids[i]);
    }
    forall id | id in values ensures id in Hashes(d, vs) {
      assert id in ids;
      var i :| 0 <= i < |ids| && ids[i] == id;
      assert ObjectHash(d, vs[i]) == id;
    }
  }

  lemma ReferencedAll(changes: Changes, pending: set<Hash>)
    requires Covered(changes, pending)
    ensures Referenced(changes, pending) == pending
  {
    forall id | id in pending ensures id in Referenced(changes, pending) {
      var k :| k in changes && changes[k] == Some(id);
    }
  }

  lemma PrepareParts(mem: Mem, changes: Changes)
    requires mem.txn < U64 && |changes| < U32
    ensures var p := BatchPrepare(mem, changes);
            |p| >= 44 && p[..32] == mem.chain && Num(p[32..40]) == mem.txn && Num(p[40..44]) == |changes| &&
            p[44..] == EncodeEntries(SortedKeys(changes.Keys), changes)
  {
    hide Le, Num, EncodeEntries, Fits;
    var p := BatchPrepare(mem, changes);
    assert p[32..40] == Le(mem.txn, 8) && p[40..44] == Le(|changes|, 4);
    FitsU64(mem.txn);
    FitsU32(|changes|);
  }

  lemma DecodeBatch(kind: nat, p: Bytes, mem: Mem, pending: set<Hash>, changes: Changes)
    requires kind in {PREPARE_VALUES, PREPARE_REFERENCES} && |p| >= 44 && p[..32] == mem.chain
    requires Num(p[32..40]) == mem.txn && Num(p[40..44]) == |changes| && 0 < |changes| <= 64
    requires ParseEntries(p, 44, |changes|, None, mem,
                          pending + if kind == PREPARE_REFERENCES then mem.objects.Keys else {}, map[]) ==
              Some((|p|, changes))
    requires Referenced(changes, pending) == pending
    ensures DecodePrepare(kind, p, mem, pending) == Some(changes)
  {
    hide Num, ParseEntries;
  }

  lemma BatchListable(d: Digest, mem: Mem, g: Gathered)
    requires Encodables(d, mem, g)
    ensures Listable(SortedKeys(g.changes.Keys), g.changes, None, mem,
                     g.values.Keys + if g.references then mem.objects.Keys else {})
    ensures Referenced(g.changes, g.values.Keys) == g.values.Keys
  {
    hide Less, ObjectHash, Sorted, SortedKeys;
    ReferencedAll(g.changes, g.values.Keys);
  }

  /** The prepare record `transact` writes decodes to the changes it encoded. */
  lemma BatchPrepareDecodes(d: Digest, mem: Mem, g: Gathered)
    requires Encodables(d, mem, g) && mem.txn < U64 && 0 < |g.changes| <= 64
    ensures DecodePrepare(KindOf(g), BatchPrepare(mem, g.changes), mem, g.values.Keys) == Some(g.changes)
  {
    var p := BatchPrepare(mem, g.changes);
    var keys := SortedKeys(g.changes.Keys);
    var known := g.values.Keys + if g.references then mem.objects.Keys else {};
    hide EncodeEntries, ParseEntries, Num, ObjectHash, BatchPrepare, DecodePrepare, Referenced, Sorted, SortedKeys,
         Encodables, Listable, Picked;
    BatchListable(d, mem, g);
    PrepareParts(mem, g.changes);
    EntriesParsed(p, 44, keys, g.changes, None, mem, known, map[]);
    PickedAll(keys, g.changes);
    DecodeBatch(KindOf(g), p, mem, g.values.Keys, g.changes);
  }

  lemma {:induction false} EntriesLength(keys: seq<Bytes>, changes: Changes)
    requires forall k :: k in keys ==> k in changes && |k| <= 1024
    ensures |EncodeEntries(keys, changes)| <= 1064 * |keys|
  {
    if keys != [] { EntriesLength(keys[1..], changes); }
  }

  /** The guards `transact` checks on sizes and positions before it writes. */
  ghost predicate Room(d: Digest, mem: Mem, g: Gathered) {
    var size := |EncodeAll(d, Batch(d, mem, ValueList(g.values), KindOf(g), BatchPrepare(mem, g.changes)))|;
    mem.txn + 1 < U64 && size <= MAX_BATCH && HasRoom(mem.end, size + COMMIT_LENGTH)
  }

  function KindOf(g: Gathered): nat { if g.references then PREPARE_REFERENCES else PREPARE_VALUES }

  lemma BatchPrepareLength(d: Digest, mem: Mem, g: Gathered)
    requires Encodables(d, mem, g) && |g.changes| <= 64
    ensures RecordLength(|BatchPrepare(mem, g.changes)|) <= MAX_RECORD
  {
    hide ObjectHash, EncodeEntries, Sorted;
    EntriesLength(SortedKeys(g.changes.Keys), g.changes);
  }

  /** Whatever `transact` accepts, recovery will accept back. */
  lemma TransactOk(d: Digest, body: Bytes, mem: Mem, muts: seq<Mutation>)
    requires 0 < |muts| <= 64 && GatherAll(d, body, mem, muts).Some?
    requires Room(d, mem, GatherAll(d, body, mem, muts).value)
    ensures var g := GatherAll(d, body, mem, muts).value;
            TxOk(d, mem, ValueList(g.values), KindOf(g), BatchPrepare(mem, g.changes), g.changes)
  {
    hide DecodePrepare, ObjectHash, EncodeAll, Gather, GatherAll, EncodeEntries, BatchPrepare, ValueList, Distinct,
         Hashes, RecordLength, HasRoom;
    var g := GatherAll(d, body, mem, muts).value;
    GatherAllKeeps(d, body, mem, muts);
    BatchPrepareDecodes(d, mem, g);
    BatchPrepareLength(d, mem, g);
    ValueListFacts(d, g.values);
  }

  lemma PutParts(d: Digest, mem: Mem, key: Bytes, value: Bytes)
    requires 0 < |key| <= 1024
    ensures var p := PutPrepare(d, mem, key, value);
            p[..32] == mem.chain && Num(p[32..36]) == |key| && p[36..36 + |key|] == key &&
            p[36 + |key|..] == ObjectHash(d, value)
  {
    hide Le, Num, ObjectHash, Fits;
    var p := PutPrepare(d, mem, key, value);
    assert p[32..36] == Le(|key|, 4);
    FitsU32(|key|);
  }

  lemma DecodeOne(d: Digest, p: Bytes, mem: Mem, key: Bytes, id: Hash)
    requires 0 < |key| <= 1024 && |p| == 68 + |key| && p[..32] == mem.chain
    requires Num(p[32..36]) == |key| && p[36..36 + |key|] == key && p[36 + |key|..] == id
    ensures DecodePrepare(PREPARE_ONE, p, mem, {id}) == Some(map[key := Some(id)])
  {
    hide Num;
    assert p[36 + |key|..68 + |key|] == p[36 + |key|..];
  }

  /** The single-root form `put` writes decodes to that one change. */
  lemma PutPrepareDecodes(d: Digest, mem: Mem, key: Bytes, value: Bytes)
    requires 0 < |key| <= 1024
    ensures DecodePrepare(PREPARE_ONE, PutPrepare(d, mem, key, value), mem, Hashes(d, [value])) ==
            Some(map[key := Some(ObjectHash(d, value))])
  {
    hide Num, ObjectHash, PutPrepare, DecodePrepare;
    PutParts(d, mem, key, value);
    PutLength(d, mem, key, value);
    assert Hashes(d, [value]) == {ObjectHash(d, value)} by {
      assert [value][0] == value;
      assert ObjectHash(d, [value][0]) in Hashes(d, [value]);
    }
    DecodeOne(d, PutPrepare(d, mem, key, value), mem, key, ObjectHash(d, value));
  }

  lemma PutLength(d: Digest, mem: Mem, key: Bytes, value: Bytes)
    ensures |PutPrepare(d, mem, key, value)| == 68 + |key|
  {
  }

  lemma PutOk(d: Digest, mem: Mem, key: Bytes, value: Bytes)
    requires 0 < |key| <= 1024 && |value| <= MAX_PAYLOAD
    requires mem.txn + 1 < U64
    requires
      var batch := EncodeAll(d, Batch(d, mem, [value], PREPARE_ONE, PutPrepare(d, mem, key, value)));
      HasRoom(mem.end, |batch| + COMMIT_LENGTH)
    ensures TxOk(d, mem, [value], PREPARE_ONE, PutPrepare(d, mem, key, value), map[key := Some(ObjectHash(d, value))])
  {
    hide DecodePrepare, ObjectHash, Encode, HasRoom;
    var prepare := PutPrepare(d, mem, key, value);
    PutLength(d, mem, key, value);
    PutPrepareDecodes(d, mem, key, value);
    var data, r := DataRecs(d, mem.txn + 1, [value]), Rec(PREPARE_ONE, mem.txn + 1, NO_HASH, prepare);
    EncodeAllConcat(d, data, [r]);
    EncodeAllOne(d, r);
    assert data == [DataRec(d, mem.txn + 1, value)];
    EncodeAllOne(d, DataRec(d, mem.txn + 1, value));
  }

  // ---- When the two calls are accepted ----

  ghost predicate PutEnabled(d: Digest, mem: Mem, key: Bytes, value: Bytes) {
    0 < |key| <= 1024 && |value| <= MAX_PAYLOAD && mem.txn + 1 < U64 &&
    var batch := EncodeAll(d, Batch(d, mem, [value], PREPARE_ONE, PutPrepare(d, mem, key, value)));
    HasRoom(mem.end, |batch| + COMMIT_LENGTH)
  }

  ghost predicate TransactEnabled(d: Digest, body: Bytes, mem: Mem, expected: nat, muts: seq<Mutation>) {
    expected == mem.txn && 0 < |muts| <= 64 && Acceptable(d, body, mem, muts) &&
    (GatherAccepts(d, body, mem, muts); Room(d, mem, GatherAll(d, body, mem, muts).value))
  }
}
