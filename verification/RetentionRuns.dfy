/** Over every run of updates, snapshots, forks, other commits and collections, each World
    reads as its own history says and each revision as it was captured, with its ancestors
    (daemon/namespace.cpp, daemon/container.cpp, daemon/level_store.cpp). */
module RetentionRuns {
  import opened Bytes
  import opened JournalCodec
  import opened Treap
  import opened Retention
  import opened Revisions
  import T = MetadataTree
  import L = LevelStore
  import G = Garbage

  // ---- Histories beside the store ----

  /** The store, and what was asked of it: each World's contents, the contents of the
      revisions it descends from, and the contents each revision captured with its ancestors'. */
  datatype System = System(
    state: L.State,
    want: map<Bytes, Contents>,
    line: map<Bytes, seq<Contents>>,
    kept: map<Bytes, seq<Contents>>)

  const EMPTY: System := System(L.State(map[], map[], 0, 0, 0), map[], map[], map[])

  function WantOf(y: System, w: Bytes): Contents {
    if w in y.want then y.want[w] else map[]
  }

  function LineOf(y: System, w: Bytes): seq<Contents> {
    if w in y.line then y.line[w] else []
  }

  function KeptOf(y: System, name: Bytes): seq<Contents> {
    if name in y.kept && y.kept[name] != [] then y.kept[name] else [map[]]
  }

  ghost function After(sha: Bytes -> Hash, p: Priority, y: System, e: Event): System {
    if !Enabled(sha, p, y.state, e) then y
    else
      var s := StateAfter(sha, p, y.state, e);
      match e
      case Initialize(values) => y.(state := s, want := y.want[MAIN := values])
      case Update(w, changes, _) => y.(state := s, want := y.want[w := ApplyEdits(WantOf(y, w), Inner(changes))])
      case Snapshot(w, name, _) =>
        var captured := [WantOf(y, w)] + LineOf(y, w);
        y.(state := s, kept := y.kept[name := captured], line := y.line[w := captured])
      case Fork(name, w) =>
        y.(state := s, want := y.want[w := KeptOf(y, name)[0]], line := y.line[w := KeptOf(y, name)])
      case Other(_) => y.(state := s)
      case Collection => y.(state := s)
  }

  ghost function Run(sha: Bytes -> Hash, p: Priority, y: System, events: seq<Event>): System
    decreases |events|
  {
    if events == [] then y else Run(sha, p, After(sha, p, y, events[0]), events[1..])
  }

  /** Every payload the run handles is among these. */
  ghost predicate Within(sha: Bytes -> Hash, p: Priority, payloads: set<Bytes>, y: System, events: seq<Event>)
    decreases |events|
  {
    events == [] ||
    ((Enabled(sha, p, y.state, events[0]) ==> Written(sha, p, y.state, events[0]) <= payloads) &&
     Within(sha, p, payloads, After(sha, p, y, events[0]), events[1..]))
  }

  // ---- The invariant ----

  ghost predicate FlatMeans(s: L.State, c: Contents) {
    KeysOk(c) && Holds(s.objects, FlatRefs(s.roots), c)
  }

  ghost predicate WorldMeans(p: Priority, s: L.State, w: Bytes, c: Contents) {
    if Flat(s, w) then FlatMeans(s, c) else WorldKey(w) in s.roots && Means(p, s.objects, s.roots[WorldKey(w)], c)
  }

  ghost predicate RevisionMeans(p: Priority, s: L.State, name: Bytes, cs: seq<Contents>) {
    cs != [] && RevisionKey(name) in s.roots && Lineage(p, s.objects, s.roots[RevisionKey(name)], cs)
  }

  ghost predicate BaseMeans(p: Priority, s: L.State, w: Bytes, cs: seq<Contents>) {
    cs != [] && BaseWell(s, w) && Lineage(p, s.objects, s.objects[s.roots[BaseKey(w)]], cs)
  }

  /** A reserved key belongs to a World or revision of the history, or names its own object. */
  ghost predicate KeyOk(y: System, k: Bytes, id: Hash) {
    (StartsWith(k, G.WORLDS) ==> k[|G.WORLDS|..] in y.want) &&
    (StartsWith(k, G.REVISIONS) ==> k[|G.REVISIONS|..] in y.kept) &&
    (StartsWith(k, G.BASES) ==> k[|G.BASES|..] in y.line) &&
    (StartsWith(k, PREFIX) ==> MAIN in y.want) &&
    (G.Registry(k) ==> k == RegistryKey(id))
  }

  ghost predicate KeysNamed(y: System) {
    forall k :: k in y.state.roots ==> KeyOk(y, k, y.state.roots[k])
  }

  ghost predicate WorldsMean(p: Priority, y: System) {
    forall w :: w in y.want ==> WorldMeans(p, y.state, w, y.want[w])
  }

  ghost predicate RevisionsMean(p: Priority, y: System) {
    forall r :: r in y.kept ==> RevisionMeans(p, y.state, r, y.kept[r])
  }

  ghost predicate BasesMean(p: Priority, y: System) {
    forall w :: w in y.line ==> BaseMeans(p, y.state, w, y.line[w])
  }

  ghost predicate Drawn(payloads: set<Bytes>, objects: L.Objects) {
    forall h :: h in objects ==> objects[h] in payloads
  }

  ghost predicate Inv(sha: Bytes -> Hash, p: Priority, payloads: set<Bytes>, y: System) {
    L.StateOk(sha, y.state) && Drawn(payloads, y.state.objects) && KeysNamed(y) &&
    WorldsMean(p, y) && RevisionsMean(p, y) && BasesMean(p, y)
  }

  // ---- What a commit does ----

  ghost predicate Touches(ms: seq<Mutation>, k: Bytes) {
    exists m :: m in ms && m.key == k
  }

  ghost predicate Lands(sha: Bytes -> Hash, s': L.State, m: Mutation) {
    match L.TargetOf(sha, m)
    case Some(h) => m.key in s'.roots && s'.roots[m.key] == h
    case None => m.key !in s'.roots
  }

  ghost predicate Stored(sha: Bytes -> Hash, objects: L.Objects, v: Bytes) {
    sha(v) != NO_HASH && sha(v) in objects && objects[sha(v)] == v
  }

  ghost predicate Rest(s: L.State, ms: seq<Mutation>, s': L.State) {
    forall k :: !Touches(ms, k) ==> (k in s'.roots <==> k in s.roots) && (k in s.roots ==> s'.roots[k] == s.roots[k])
  }

  /** Everything a commit changes and leaves. */
  ghost predicate Effect(sha: Bytes -> Hash, s: L.State, ms: seq<Mutation>, s': L.State) {
    Extends(s.objects, s'.objects) && Rest(s, ms, s') && (forall m :: m in ms ==> Lands(sha, s', m)) &&
    (forall v :: v in ValuesIn(ms) ==> Stored(sha, s'.objects, v))
  }

  lemma FoundIs(sha: Bytes -> Hash, payloads: set<Bytes>, objects: L.Objects, v: Bytes)
    requires TellsApart(sha, payloads) && Drawn(payloads, objects) && L.Hashed(sha, objects) && v in payloads
    requires sha(v) in objects
    ensures Stored(sha, objects, v)
  {
  }

  lemma CommitDrawn(sha: Bytes -> Hash, payloads: set<Bytes>, s: L.State, ms: seq<Mutation>)
    requires Drawn(payloads, s.objects) && ValuesIn(ms) <= payloads
    ensures Drawn(payloads, L.Merged(s.objects, L.ValuesOf(sha, ms)))
  {
    hide L.ValuesOf;
    var values := L.ValuesOf(sha, ms);
    forall h | h in values ensures values[h] in payloads {
      L.ValueFrom(sha, ms, h);
      var m :| m in ms && m.value == Some(values[h]) && m.reference.None?;
      assert m.value.value in ValuesIn(ms);
    }
  }

  lemma CommitRoots(sha: Bytes -> Hash, s: L.State, ms: seq<Mutation>)
    requires OnceEach(ms)
    ensures var s' := Committed(sha, s, ms); Rest(s, ms, s') && forall m :: m in ms ==> Lands(sha, s', m)
  {
    hide L.UpdatesOf, OnceEach, L.ValuesOf, L.Merged, ApplyChanges, L.TargetOf, Touches;
    var s' := Committed(sha, s, ms);
    forall k | !Touches(ms, k) ensures k !in L.UpdatesOf(sha, ms) { NotUpdated(sha, ms, k); }
    forall m | m in ms ensures Lands(sha, s', m) { L.TargetIs(sha, ms, m); }
  }

  lemma NotUpdated(sha: Bytes -> Hash, ms: seq<Mutation>, k: Bytes)
    requires !Touches(ms, k)
    ensures k !in L.UpdatesOf(sha, ms)
  {
    hide L.UpdatesOf;
    L.UpdateKeys(sha, ms);
  }

  lemma CommitEffect(sha: Bytes -> Hash, payloads: set<Bytes>, s: L.State, ms: seq<Mutation>)
    requires L.StateOk(sha, s) && Drawn(payloads, s.objects) && TellsApart(sha, payloads)
    requires Accepted(sha, s, ms) && ValuesIn(ms) <= payloads
    ensures var s' := Committed(sha, s, ms); L.StateOk(sha, s') && Drawn(payloads, s'.objects) && Effect(sha, s, ms, s')
  {
    hide L.ValuesOf, L.UpdatesOf, L.Merged, ApplyChanges, L.Weight, L.Hashed, L.Anchored, Drawn, TellsApart, Stored,
         Rest, Lands, OnceEach, L.Doable, L.Agrees;
    var s' := Committed(sha, s, ms);
    L.StoreKeeps(sha, s.objects, s.roots, ms);
    CommitDrawn(sha, payloads, s, ms);
    CommitRoots(sha, s, ms);
    MergedExtends(s.objects, L.ValuesOf(sha, ms));
    forall v | v in ValuesIn(ms) ensures Stored(sha, s'.objects, v) {
      var m :| m in ms && m.value == Some(v);
      OneOrOther(s.objects, s.roots, m);
      L.ValueIn(sha, ms, m);
      FoundIs(sha, payloads, s'.objects, v);
    }
  }

  lemma OneOrOther(objects: L.Objects, roots: Refs, m: Mutation)
    requires L.Doable(objects, roots, m)
    ensures m.value.Some? ==> m.reference.None?
  {
  }

  lemma MergedExtends(objects: L.Objects, values: L.Objects)
    ensures Extends(objects, L.Merged(objects, values)) && values.Keys <= L.Merged(objects, values).Keys
  {
  }

  // ---- What a commit leaves alone ----

  lemma WorldStays(p: Priority, s: L.State, ms: seq<Mutation>, s': L.State, w: Bytes, c: Contents)
    requires WorldMeans(p, s, w, c) && Extends(s.objects, s'.objects) && Rest(s, ms, s') && !Touches(ms, WorldKey(w))
    requires w == MAIN ==> forall m :: m in ms ==> !StartsWith(m.key, PREFIX)
    ensures WorldMeans(p, s', w, c)
  {
    hide Means, KeysOk, StartsWith;
    if Flat(s, w) {
      forall k | StartsWith(k, PREFIX) ensures !Touches(ms, k) { }
      assert FlatRefs(s'.roots) == FlatRefs(s.roots);
    } else {
      MeansMore(p, s.objects, s'.objects, s.roots[WorldKey(w)], c);
    }
  }

  lemma RevisionStays(p: Priority, s: L.State, ms: seq<Mutation>, s': L.State, name: Bytes, cs: seq<Contents>)
    requires RevisionMeans(p, s, name, cs) && Extends(s.objects, s'.objects) && Rest(s, ms, s')
    requires !Touches(ms, RevisionKey(name))
    ensures RevisionMeans(p, s', name, cs)
  {
    hide Lineage, Touches;
    LineageMore(p, s.objects, s'.objects, s.roots[RevisionKey(name)], cs);
  }

  lemma BaseStays(p: Priority, s: L.State, ms: seq<Mutation>, s': L.State, w: Bytes, cs: seq<Contents>)
    requires BaseMeans(p, s, w, cs) && Extends(s.objects, s'.objects) && Rest(s, ms, s') && !Touches(ms, BaseKey(w))
    ensures BaseMeans(p, s', w, cs)
  {
    hide Lineage, Touches;
    LineageMore(p, s.objects, s'.objects, s.objects[s.roots[BaseKey(w)]], cs);
  }

  /** The names a mutation may write, given the histories after it. */
  ghost predicate Names(sha: Bytes -> Hash, y': System, m: Mutation) {
    L.TargetOf(sha, m).Some? ==> KeyOk(y', m.key, L.TargetOf(sha, m).value)
  }

  ghost predicate Grows(y: System, y': System) {
    y.want.Keys <= y'.want.Keys && y.line.Keys <= y'.line.Keys && y.kept.Keys <= y'.kept.Keys
  }

  lemma NamesStep(sha: Bytes -> Hash, y: System, ms: seq<Mutation>, y': System)
    requires KeysNamed(y) && Effect(sha, y.state, ms, y'.state) && Grows(y, y')
    requires forall m :: m in ms ==> Names(sha, y', m)
    ensures KeysNamed(y')
  {
    hide StartsWith, G.Registry, L.TargetOf, Extends, Stored;
    forall k | k in y'.state.roots ensures KeyOk(y', k, y'.state.roots[k]) {
      if Touches(ms, k) {
        var m :| m in ms && m.key == k;
        assert Lands(sha, y'.state, m) && Names(sha, y', m);
      }
    }
  }

  lemma WorldsStep(p: Priority, y: System, ms: seq<Mutation>, y': System)
    requires WorldsMean(p, y) && Extends(y.state.objects, y'.state.objects) && Rest(y.state, ms, y'.state)
    requires forall w :: w in y'.want ==>
      WorldMeans(p, y'.state, w, y'.want[w]) ||
      (w in y.want && y'.want[w] == y.want[w] && !Touches(ms, WorldKey(w)) &&
       (w == MAIN ==> forall m :: m in ms ==> !StartsWith(m.key, PREFIX)))
    ensures WorldsMean(p, y')
  {
    hide WorldMeans, Extends, Rest, StartsWith, WorldKey, Touches;
    forall w | w in y'.want ensures WorldMeans(p, y'.state, w, y'.want[w]) {
      if !WorldMeans(p, y'.state, w, y'.want[w]) { WorldStays(p, y.state, ms, y'.state, w, y.want[w]); }
    }
  }

  lemma RevisionsStep(p: Priority, y: System, ms: seq<Mutation>, y': System)
    requires RevisionsMean(p, y) && Extends(y.state.objects, y'.state.objects) && Rest(y.state, ms, y'.state)
    requires forall r :: r in y'.kept ==>
      RevisionMeans(p, y'.state, r, y'.kept[r]) ||
      (r in y.kept && y'.kept[r] == y.kept[r] && !Touches(ms, RevisionKey(r)))
    ensures RevisionsMean(p, y')
  {
    hide RevisionMeans, Extends, Rest, RevisionKey, Touches;
    forall r | r in y'.kept ensures RevisionMeans(p, y'.state, r, y'.kept[r]) {
      if !RevisionMeans(p, y'.state, r, y'.kept[r]) { RevisionStays(p, y.state, ms, y'.state, r, y.kept[r]); }
    }
  }

  lemma BasesStep(p: Priority, y: System, ms: seq<Mutation>, y': System)
    requires BasesMean(p, y) && Extends(y.state.objects, y'.state.objects) && Rest(y.state, ms, y'.state)
    requires forall w :: w in y'.line ==>
      BaseMeans(p, y'.state, w, y'.line[w]) || (w in y.line && y'.line[w] == y.line[w] && !Touches(ms, BaseKey(w)))
    ensures BasesMean(p, y')
  {
    hide BaseMeans, Extends, Rest, BaseKey, Touches;
    forall w | w in y'.line ensures BaseMeans(p, y'.state, w, y'.line[w]) {
      if !BaseMeans(p, y'.state, w, y'.line[w]) { BaseStays(p, y.state, ms, y'.state, w, y.line[w]); }
    }
  }

  // ---- Which keys a batch touches ----

  /** A registry name, or a key outside the reserved ones. */
  predicate Side(k: Bytes) {
    Free(k) || G.Registry(k)
  }

  lemma SideKeys(k: Bytes)
    requires Side(k)
    ensures !StartsWith(k, PREFIX) && !StartsWith(k, G.WORLDS) && !StartsWith(k, G.REVISIONS) && !StartsWith(k, G.BASES)
  {
    hide StartsWith;
    OneKind(k);
    if G.Registry(k) { Longer(k, HISTORY, G.REGISTRY); }
  }

  /** The reserved keys of two names, when they can be the same key. */
  lemma KeysApart(a: Bytes, b: Bytes)
    ensures WorldKey(a) == WorldKey(b) ==> a == b
    ensures RevisionKey(a) == RevisionKey(b) ==> a == b
    ensures BaseKey(a) == BaseKey(b) ==> a == b
    ensures WorldKey(a) != RevisionKey(b) && WorldKey(a) != BaseKey(b) && RevisionKey(a) != BaseKey(b)
    ensures !StartsWith(WorldKey(a), PREFIX) && !StartsWith(RevisionKey(a), PREFIX) && !StartsWith(BaseKey(a), PREFIX)
  {
    hide StartsWith, WorldKey, RevisionKey, BaseKey;
    KeyNames(a);
    KeyNames(b);
    OneKind(WorldKey(a));
    OneKind(RevisionKey(a));
    OneKind(BaseKey(a));
    Longer(WorldKey(a), HISTORY, G.WORLDS);
    Longer(RevisionKey(a), HISTORY, G.REVISIONS);
    Longer(BaseKey(a), HISTORY, G.BASES);
  }

  /** The mutations write no reserved key but these. */
  ghost predicate OnlyKeys(ms: seq<Mutation>, keys: set<Bytes>) {
    forall m :: m in ms ==> Side(m.key) || m.key in keys
  }

  lemma Untouched(ms: seq<Mutation>, keys: set<Bytes>, name: Bytes)
    requires OnlyKeys(ms, keys)
    ensures WorldKey(name) !in keys ==> !Touches(ms, WorldKey(name))
    ensures RevisionKey(name) !in keys ==> !Touches(ms, RevisionKey(name))
    ensures BaseKey(name) !in keys ==> !Touches(ms, BaseKey(name))
  {
    hide StartsWith, WorldKey, RevisionKey, BaseKey, Side;
    KeyNames(name);
    forall m | m in ms && Side(m.key)
      ensures m.key != WorldKey(name) && m.key != RevisionKey(name) && m.key != BaseKey(name)
    {
      SideKeys(m.key);
    }
  }

  lemma NotFlat(ms: seq<Mutation>, keys: set<Bytes>)
    requires OnlyKeys(ms, keys) && forall k :: k in keys ==> !StartsWith(k, PREFIX)
    ensures forall m :: m in ms ==> !StartsWith(m.key, PREFIX)
  {
    hide StartsWith, Side;
    forall m | m in ms ensures !StartsWith(m.key, PREFIX) {
      if Side(m.key) { SideKeys(m.key); }
    }
  }

  /** A mutation that puts a payload under its own registry name, or writes a free key. */
  ghost predicate SideWrite(sha: Bytes -> Hash, m: Mutation) {
    Free(m.key) || (m.value.Some? && m.reference.None? && m.key == RegistryKey(sha(m.value.value)))
  }

  lemma SideWriteNames(sha: Bytes -> Hash, y': System, m: Mutation)
    requires SideWrite(sha, m)
    ensures Side(m.key) && Names(sha, y', m)
  {
    hide StartsWith, RegistryKey;
    if !Free(m.key) { KeyNames(sha(m.value.value)); }
    SideKeys(m.key);
  }

  lemma UnregisteredWrites(sha: Bytes -> Hash, roots: Refs, payloads: set<Bytes>)
    ensures forall m :: m in List(Unregistered(sha, roots, payloads)) ==> SideWrite(sha, m)
  {
    hide Free, RegistryKey, List;
  }

  lemma UpdateWrites(sha: Bytes -> Hash, s: L.State, w: Bytes, changes: Edits, plan: T.Plan)
    ensures forall m :: m in UpdateBatch(sha, s, w, changes, plan) ==>
      SideWrite(sha, m) || (Inner(changes) != map[] && m == Mutation(WorldKey(w), Some(TreeManifest(sha, plan)), None))
  {
    hide Free, RegistryKey, List, StartsWith, Inner, TreeManifest, PayloadsIn, NodePayloads, Unregistered, MarkersIn;
    var inner := Inner(changes);
    var payloads := PayloadsIn(inner) + NodePayloads(sha, plan.objects);
    UnregisteredWrites(sha, s.roots, payloads);
    forall m | m in List(Outer(changes)) ensures SideWrite(sha, m) { OneKind(m.key); }
    forall m | m in List(NewObjects(sha, s.roots, inner, plan.objects)) ensures SideWrite(sha, m) {
      if m.key in Unregistered(sha, s.roots, payloads) {
        assert m in List(Unregistered(sha, s.roots, payloads));
      } else {
        MarkerFree(inner, m.key);
      }
    }
  }

  lemma MarkerFree(inner: Edits, k: Bytes)
    requires k in MarkersIn(inner)
    ensures Free(k)
  {
    hide Free;
    assert StartsWith(k, MARKERS);
    OneKind(k);
  }

  lemma SnapshotWrites(sha: Bytes -> Hash, s: L.State, w: Bytes, name: Bytes, plan: T.Plan)
    ensures var descriptor := Descriptor(sha, s, w, plan);
      forall m :: m in SnapshotBatch(sha, s, w, name, plan) ==>
        SideWrite(sha, m) || m == Mutation(RevisionKey(name), Some(descriptor), None) ||
        m == Mutation(BaseKey(w), Some(sha(descriptor)), None)
  {
    hide SideWrite, List, Unregistered, NodePayloads, TreeManifest, Descriptor;
    UnregisteredWrites(sha, s.roots, NodePayloads(sha, plan.objects) + {TreeManifest(sha, plan)});
  }

  // ---- A published tree ----

  function RefsOf(s: L.State, w: Bytes, before: Id): Refs {
    if Flat(s, w) then FlatRefs(s.roots) else Map(before)
  }

  /** The tree the editor opened is the World's own. */
  lemma OpenedMeans(p: Priority, s: L.State, w: Bytes, before: Id, c: Contents)
    requires WorldMeans(p, s, w, c) && Opened(s, w, before)
    ensures KeysOk(c) && Holds(s.objects, RefsOf(s, w, before), c) && T.Height(before) <= T.MAX_DEPTH
    ensures Flat(s, w) ==> before == Zero
    ensures !Flat(s, w) ==> WorldKey(w) in s.roots && Manifest(s.objects, s.roots[WorldKey(w)], before)
  {
    hide KeysOk, Holds, Ordered, Represents, Map, FlatRefs, WorldKey;
    if !Flat(s, w) {
      var id := s.roots[WorldKey(w)];
      var t :| TreeMeans(p, s.objects, id, t, c);
      RepresentsUnique(s.objects, s.objects[id][8..40], t, before);
    }
  }

  /** The published map is the World's references with the changes applied. */
  lemma DeltaApplies(p: Priority, s: L.State, w: Bytes, before: Id, delta: Changes, plan: T.Plan)
    requires Opened(s, w, before) && Planned(p, before, AllChanges(s, w, delta), plan)
    ensures Map(plan.root) == ApplyChanges(RefsOf(s, w, before), delta)
    ensures forall k :: k in delta ==> T.ValidKey(k)
  {
    hide Ordered, T.Height, T.Present, T.ValidKey, StartsWith, Manifest;
    var all := AllChanges(s, w, delta);
    forall k | k in delta ensures T.ValidKey(k) { assert k in all && T.AcceptableChange(k, all[k]); }
    if Flat(s, w) {
      FlatApplies(FlatRefs(s.roots), delta);
    }
  }

  lemma FlatApplies(refs: Refs, delta: Changes)
    ensures ApplyChanges(map[], Puts(refs) + delta) == ApplyChanges(refs, delta)
  {
  }

  lemma EditsHold(sha: Bytes -> Hash, objects: L.Objects, objects': L.Objects, refs: Refs, c: Contents, inner: Edits)
    requires Holds(objects, refs, c) && Extends(objects, objects')
    requires forall v :: v in PayloadsIn(inner) ==> Stored(sha, objects', v)
    ensures Holds(objects', ApplyChanges(refs, DeltaOf(sha, inner)), ApplyEdits(c, inner))
  {
    hide ApplyChanges, ApplyEdits;
    var refs', c' := ApplyChanges(refs, DeltaOf(sha, inner)), ApplyEdits(c, inner);
    forall k | k in c'
      ensures k in refs' && refs'[k] != NO_HASH && refs'[k] in objects' && objects'[refs'[k]] == c'[k]
    {
      if k in inner { assert c'[k] in PayloadsIn(inner); }
    }
  }

  lemma EditKeys(c: Contents, inner: Edits)
    requires KeysOk(c) && (forall k :: k in inner ==> T.ValidKey(k)) && ROOT in ApplyEdits(c, inner)
    ensures KeysOk(ApplyEdits(c, inner))
  {
    hide T.ValidKey, ApplyEdits;
  }

  /** Every payload of the batch is stored afterwards, whether it was put or registered already. */
  lemma AllStored(sha: Bytes -> Hash, payloads: set<Bytes>, y: System, some: set<Bytes>, ms: seq<Mutation>, s': L.State)
    requires L.StateOk(sha, y.state) && KeysNamed(y) && TellsApart(sha, payloads) && some <= payloads
    requires Drawn(payloads, y.state.objects) && Effect(sha, y.state, ms, s')
    requires forall m :: m in List(Unregistered(sha, y.state.roots, some)) ==> m in ms
    ensures forall v :: v in some ==> Stored(sha, s'.objects, v)
  {
    hide RegistryKey, StartsWith, Lands, Rest, List, G.Registry;
    forall v | v in some ensures Stored(sha, s'.objects, v) {
      var k := RegistryKey(sha(v));
      if k in y.state.roots {
        RegisteredStored(sha, payloads, y, v);
      } else {
        UnregisteredPut(sha, payloads, y.state.roots, some, v);
        assert Mutation(k, Some(v), None) in ms;
        assert v in ValuesIn(ms);
      }
    }
  }

  lemma RegisteredStored(sha: Bytes -> Hash, payloads: set<Bytes>, y: System, v: Bytes)
    requires L.StateOk(sha, y.state) && KeysNamed(y) && TellsApart(sha, payloads) && v in payloads
    requires Drawn(payloads, y.state.objects) && RegistryKey(sha(v)) in y.state.roots
    ensures Stored(sha, y.state.objects, v)
  {
    hide RegistryKey, StartsWith, TellsApart, Drawn, L.Hashed, Stored;
    var k := RegistryKey(sha(v));
    KeyNames(sha(v));
    assert KeyOk(y, k, y.state.roots[k]);
    RegistryInjective(sha(v), y.state.roots[k]);
    FoundIs(sha, payloads, y.state.objects, v);
  }

  lemma UnregisteredPut(sha: Bytes -> Hash, payloads: set<Bytes>, roots: Refs, some: set<Bytes>, v: Bytes)
    requires TellsApart(sha, payloads) && some <= payloads && v in some && RegistryKey(sha(v)) !in roots
    ensures Mutation(RegistryKey(sha(v)), Some(v), None) in List(Unregistered(sha, roots, some))
  {
    hide RegistryKey, List;
    var k := RegistryKey(sha(v));
    var edits := Unregistered(sha, roots, some);
    assert k in edits;
    var u := edits[k].value;
    RegistryInjective(sha(u), sha(v));
  }

  /** Every node of a published tree is stored afterwards: it was there or came with the plan. */
  lemma PlanStored(sha: Bytes -> Hash, p: Priority, payloads: set<Bytes>, s: L.State, s': L.State, w: Bytes,
                   before: Id, changes: Changes, plan: T.Plan)
    requires Planned(p, before, changes, plan) && L.Hashed(sha, s.objects) && Extends(s.objects, s'.objects)
    requires TellsApart(sha, payloads)
    requires before == Zero || (WorldKey(w) in s.roots && Manifest(s.objects, s.roots[WorldKey(w)], before))
    requires NodePayloads(sha, plan.objects) <= payloads
    requires forall v :: v in NodePayloads(sha, plan.objects) ==> Stored(sha, s'.objects, v)
    ensures forall n :: n in Nodes(plan.root) ==> StoredNode(sha, s'.objects, n)
  {
    hide Ordered, Map, T.Height, T.Present, T.Acceptable, ApplyChanges, NodeBytes, Represents, WorldKey, L.Hashed,
         Nodes;
    if before != Zero {
      RepresentsHash(sha, s.objects, s.objects[s.roots[WorldKey(w)]][8..40], before);
    } else {
      NoNodes();
    }
    PresentNodes(Nodes(before) + Elements(plan.objects), plan.root);
    forall n | n in Nodes(plan.root) ensures StoredNode(sha, s'.objects, n) {
      NodesValues(p, plan.root, n);
      if n !in Nodes(before) {
        assert n in plan.objects && Payload(sha, n) in NodePayloads(sha, plan.objects);
        HashIs(sha, n);
      }
    }
  }

  lemma NoNodes()
    ensures Nodes(Zero) == {}
  {
  }

  lemma HashIs(sha: Bytes -> Hash, n: Id)
    requires n.Node?
    ensures HashOf(sha, n) == sha(Payload(sha, n))
  {
  }

  /** A commit that stores a plan's nodes and manifest makes the manifest mean the edited contents. */
  lemma PlanMeans(sha: Bytes -> Hash, p: Priority, payloads: set<Bytes>, s: L.State, s': L.State, w: Bytes,
                  c: Contents, inner: Edits, plan: T.Plan)
    requires WorldMeans(p, s, w, c) && PlanFor(p, s, w, DeltaOf(sha, inner), plan)
    requires L.Hashed(sha, s.objects) && Extends(s.objects, s'.objects) && TellsApart(sha, payloads)
    requires NodePayloads(sha, plan.objects) + {TreeManifest(sha, plan)} <= payloads
    requires forall v :: v in PayloadsIn(inner) + NodePayloads(sha, plan.objects) + {TreeManifest(sha, plan)} ==>
      Stored(sha, s'.objects, v)
    ensures Means(p, s'.objects, sha(TreeManifest(sha, plan)), ApplyEdits(c, inner))
  {
    hide *;
    var before := OpenPlan(p, s, w, DeltaOf(sha, inner), plan);
    OpenedMeans(p, s, w, before, c);
    DeltaApplies(p, s, w, before, DeltaOf(sha, inner), plan);
    assert forall v :: v in NodePayloads(sha, plan.objects) ==> Stored(sha, s'.objects, v);
    PlanStored(sha, p, payloads, s, s', w, before, AllChanges(s, w, DeltaOf(sha, inner)), plan);
    EditsHold(sha, s.objects, s'.objects, RefsOf(s, w, before), c, inner);
    PlanShape(p, before, AllChanges(s, w, DeltaOf(sha, inner)), plan);
    RootThere(s'.objects, Map(plan.root), ApplyEdits(c, inner));
    assert forall k :: k in inner ==> T.ValidKey(k) by { DeltaKeys(sha, inner); }
    EditKeys(c, inner);
    TreeStored(sha, p, s'.objects, plan.root, ApplyEdits(c, inner));
    PublishedMeans(sha, p, payloads, s'.objects, plan, ApplyEdits(c, inner));
  }

  lemma DeltaKeys(sha: Bytes -> Hash, inner: Edits)
    ensures DeltaOf(sha, inner).Keys == inner.Keys
  {
  }

  lemma OpenPlan(p: Priority, s: L.State, w: Bytes, delta: Changes, plan: T.Plan) returns (before: Id)
    requires PlanFor(p, s, w, delta, plan)
    ensures Opened(s, w, before) && Planned(p, before, AllChanges(s, w, delta), plan)
  {
    hide Opened, Planned, AllChanges;
    before :| Opened(s, w, before) && Planned(p, before, AllChanges(s, w, delta), plan);
  }

  lemma PlanShape(p: Priority, before: Id, changes: Changes, plan: T.Plan)
    requires Planned(p, before, changes, plan) && T.Height(before) <= T.MAX_DEPTH
    ensures Ordered(p, plan.root) && T.Height(plan.root) <= T.MAX_DEPTH && ROOT in Map(plan.root)
  {
    hide Ordered, T.Height, Map, T.Present, T.Acceptable, ApplyChanges;
  }

  lemma RootThere(objects: L.Objects, refs: Refs, c: Contents)
    requires Holds(objects, refs, c) && ROOT in refs
    ensures ROOT in c
  {
  }

  lemma TreeStored(sha: Bytes -> Hash, p: Priority, objects: L.Objects, t: Id, c: Contents)
    requires Ordered(p, t) && Holds(objects, Map(t), c) && KeysOk(c)
    requires forall n :: n in Nodes(t) ==> StoredNode(sha, objects, n)
    ensures Represents(objects, HashOf(sha, t), t)
  {
    hide Ordered, Map, StoredNode, HashOf, Represents, StartsWith;
    forall n | n in Nodes(t) ensures n.Node? && n.value in objects && |n.key| < U32 {
      NodesValues(p, t, n);
      assert n.key in c && T.ValidKey(n.key);
    }
    StoredRepresents(sha, objects, t);
  }

  lemma PublishedMeans(sha: Bytes -> Hash, p: Priority, payloads: set<Bytes>, objects: L.Objects, plan: T.Plan,
                       c: Contents)
    requires Represents(objects, HashOf(sha, plan.root), plan.root) && Ordered(p, plan.root)
    requires T.Height(plan.root) <= T.MAX_DEPTH
    requires Holds(objects, Map(plan.root), c) && KeysOk(c)
    requires TellsApart(sha, payloads) && TreeManifest(sha, plan) in payloads
    requires Stored(sha, objects, TreeManifest(sha, plan))
    ensures Means(p, objects, sha(TreeManifest(sha, plan)), c)
  {
    hide Represents, Ordered, Map, T.Height, Holds, KeysOk, HashOf, ManifestBytes;
    ManifestFields(HashOf(sha, plan.root));
    assert TreeMeans(p, objects, sha(TreeManifest(sha, plan)), plan.root, c);
  }

  // ---- One commit ----

  ghost predicate Step(sha: Bytes -> Hash, p: Priority, payloads: set<Bytes>, y: System, ms: seq<Mutation>,
                       y': System) {
    Inv(sha, p, payloads, y) && Effect(sha, y.state, ms, y'.state) && L.StateOk(sha, y'.state) &&
    Drawn(payloads, y'.state.objects) &&
    Grows(y, y') && (forall m :: m in ms ==> Names(sha, y', m))
  }

  ghost predicate SameWorld(y: System, y': System, keys: set<Bytes>, w: Bytes) {
    w in y.want && w in y'.want && y'.want[w] == y.want[w] && WorldKey(w) !in keys &&
    (w == MAIN ==> forall k :: k in keys ==> !StartsWith(k, PREFIX))
  }

  ghost predicate SameRevision(y: System, y': System, keys: set<Bytes>, r: Bytes) {
    r in y.kept && r in y'.kept && y'.kept[r] == y.kept[r] && RevisionKey(r) !in keys
  }

  ghost predicate SameBase(y: System, y': System, keys: set<Bytes>, w: Bytes) {
    w in y.line && w in y'.line && y'.line[w] == y.line[w] && BaseKey(w) !in keys
  }

  lemma StepInv(sha: Bytes -> Hash, p: Priority, payloads: set<Bytes>, y: System, ms: seq<Mutation>, y': System,
                keys: set<Bytes>)
    requires Step(sha, p, payloads, y, ms, y') && OnlyKeys(ms, keys)
    requires forall w :: w in y'.want ==> SameWorld(y, y', keys, w) || WorldMeans(p, y'.state, w, y'.want[w])
    requires forall r :: r in y'.kept ==> SameRevision(y, y', keys, r) || RevisionMeans(p, y'.state, r, y'.kept[r])
    requires forall w :: w in y'.line ==> SameBase(y, y', keys, w) || BaseMeans(p, y'.state, w, y'.line[w])
    ensures Inv(sha, p, payloads, y')
  {
    hide WorldMeans, RevisionMeans, BaseMeans, Touches, Extends, Rest, Lands, Stored, Names, L.StateOk, Drawn,
         KeysNamed, OnlyKeys, StartsWith,
         WorldKey, RevisionKey, BaseKey, WorldsMean, RevisionsMean, BasesMean, Grows;
    NamesStep(sha, y, ms, y');
    forall w | w in y'.want && SameWorld(y, y', keys, w) ensures !Touches(ms, WorldKey(w)) { Untouched(ms, keys, w); }
    forall w | w in y'.want && SameWorld(y, y', keys, w) && w == MAIN
      ensures forall m :: m in ms ==> !StartsWith(m.key, PREFIX)
    {
      NotFlat(ms, keys);
    }
    WorldsStep(p, y, ms, y');
    forall r | r in y'.kept && SameRevision(y, y', keys, r) ensures !Touches(ms, RevisionKey(r)) {
      Untouched(ms, keys, r);
    }
    RevisionsStep(p, y, ms, y');
    forall w | w in y'.line && SameBase(y, y', keys, w) ensures !Touches(ms, BaseKey(w)) { Untouched(ms, keys, w); }
    BasesStep(p, y, ms, y');
  }

  ghost predicate Ready(sha: Bytes -> Hash, p: Priority, payloads: set<Bytes>, y: System, e: Event) {
    Inv(sha, p, payloads, y) && TellsApart(sha, payloads) && Enabled(sha, p, y.state, e) &&
    Written(sha, p, y.state, e) <= payloads
  }

  lemma ReadyEffect(sha: Bytes -> Hash, p: Priority, payloads: set<Bytes>, y: System, e: Event)
    requires Ready(sha, p, payloads, y, e) && !e.Collection?
    ensures var s' := After(sha, p, y, e).state; var ms := BatchOf(sha, y.state, e);
      L.StateOk(sha, s') && Drawn(payloads, s'.objects) && Effect(sha, y.state, ms, s')
  {
    hide L.StateOk, Drawn, Effect, BatchOf, PlanFor, ViewName, RevisionWell, Free, T.ValidKey, Flat, StartsWith,
         G.Damaged, TellsApart, KeysNamed, WorldsMean, RevisionsMean, BasesMean, Accepted, Committed,
         ApplyEdits, Inner, KeptOf, WantOf, LineOf;
    CommitEffect(sha, payloads, y.state, BatchOf(sha, y.state, e));
  }

  // ---- Initialize ----

  lemma RootPrefix()
    ensures StartsWith(ROOT, PREFIX)
  {
  }

  lemma InitializeStep(sha: Bytes -> Hash, p: Priority, payloads: set<Bytes>, y: System, e: Event)
    requires Ready(sha, p, payloads, y, e) && e.Initialize?
    ensures Inv(sha, p, payloads, After(sha, p, y, e))
  {
    hide *;
    ReadyEffect(sha, p, payloads, y, e);
    var y', ms := After(sha, p, y, e), BatchOf(sha, y.state, e);
    InitializeShape(sha, p, payloads, y, e);
    FlatEffect(sha, y.state, e.values, ms, y'.state);
    InitializeNames(sha, y', e.values, ms);
    assert Step(sha, p, payloads, y, ms, y') by { StepIs(sha, p, payloads, y, ms, y'); }
    InitializeSame(p, y, y', e.values);
    StepInv(sha, p, payloads, y, ms, y', e.values.Keys);
  }

  lemma StepIs(sha: Bytes -> Hash, p: Priority, payloads: set<Bytes>, y: System, ms: seq<Mutation>, y': System)
    requires Inv(sha, p, payloads, y) && Effect(sha, y.state, ms, y'.state) && L.StateOk(sha, y'.state)
    requires Drawn(payloads, y'.state.objects)
    requires Grows(y, y') && forall m :: m in ms ==> Names(sha, y', m)
    ensures Step(sha, p, payloads, y, ms, y')
  {
    hide Inv, Effect, L.StateOk, Drawn, Grows, Names;
  }

  lemma InitializeShape(sha: Bytes -> Hash, p: Priority, payloads: set<Bytes>, y: System, e: Event)
    requires Ready(sha, p, payloads, y, e) && e.Initialize?
    ensures var y' := After(sha, p, y, e);
      Inv(sha, p, payloads, y) && y'.want == y.want[MAIN := e.values] && y'.line == y.line && y'.kept == y.kept &&
      Grows(y, y') &&
      Flat(y.state, MAIN) && (forall k :: k in y.state.roots ==> !StartsWith(k, PREFIX)) && KeysOk(e.values) &&
      BatchOf(sha, y.state, e) == List(map k | k in e.values :: Some(e.values[k]))
  {
    hide Inv, TellsApart, Accepted, Committed, Written, StartsWith, WorldKey, List, T.ValidKey;
  }

  /** Initialization writes the flat map and nothing else. */
  lemma FlatEffect(sha: Bytes -> Hash, s: L.State, values: Contents, ms: seq<Mutation>, s': L.State)
    requires Effect(sha, s, ms, s') && ms == List(map k | k in values :: Some(values[k])) && KeysOk(values)
    requires Flat(s, MAIN) && forall k :: k in s.roots ==> !StartsWith(k, PREFIX)
    ensures Flat(s', MAIN) && FlatMeans(s', values)
  {
    hide StartsWith, WorldKey, Extends, List, Stored, T.ValidKey, Rest, Lands;
    FlatKeys(sha, s, values, ms, s');
    FlatOthers(s, values, ms, s');
    KeysApart(MAIN, MAIN);
    KeysPrefixed(values);
    assert FlatRefs(s'.roots).Keys == values.Keys;
  }

  lemma KeysPrefixed(c: Contents)
    requires KeysOk(c)
    ensures forall k :: k in c ==> StartsWith(k, PREFIX)
  {
    hide StartsWith;
    forall k | k in c ensures StartsWith(k, PREFIX) { assert T.ValidKey(k); }
  }

  lemma FlatKeys(sha: Bytes -> Hash, s: L.State, values: Contents, ms: seq<Mutation>, s': L.State)
    requires Effect(sha, s, ms, s') && ms == List(map k | k in values :: Some(values[k]))
    ensures forall k :: k in values ==>
      k in s'.roots && s'.roots[k] != NO_HASH && s'.roots[k] in s'.objects && s'.objects[s'.roots[k]] == values[k]
  {
    hide Extends, Rest;
    forall k | k in values
      ensures k in s'.roots && s'.roots[k] != NO_HASH && s'.roots[k] in s'.objects
      ensures s'.objects[s'.roots[k]] == values[k]
    {
      var m := Mutation(k, Some(values[k]), None);
      assert m in ms && Lands(sha, s', m);
      assert values[k] in ValuesIn(ms);
    }
  }

  lemma FlatOthers(s: L.State, values: Contents, ms: seq<Mutation>, s': L.State)
    requires Rest(s, ms, s') && ms == List(map k | k in values :: Some(values[k]))
    ensures forall k :: k in s'.roots && k !in values ==> k in s.roots
  {
    forall k | k in s'.roots && k !in values ensures k in s.roots { assert !Touches(ms, k); }
  }

  lemma InitializeNames(sha: Bytes -> Hash, y': System, values: Contents, ms: seq<Mutation>)
    requires ms == List(map k | k in values :: Some(values[k])) && KeysOk(values) && MAIN in y'.want
    ensures OnlyKeys(ms, values.Keys) && forall m :: m in ms ==> Names(sha, y', m)
  {
    hide StartsWith, Side;
    forall m | m in ms ensures Names(sha, y', m) {
      assert T.ValidKey(m.key);
      OneKind(m.key);
    }
  }

  lemma InitializeSame(p: Priority, y: System, y': System, values: Contents)
    requires y'.want == y.want[MAIN := values] && y'.line == y.line && y'.kept == y.kept && KeysOk(values)
    requires Flat(y'.state, MAIN) && FlatMeans(y'.state, values)
    ensures forall w :: w in y'.want ==> SameWorld(y, y', values.Keys, w) || WorldMeans(p, y'.state, w, y'.want[w])
    ensures forall r :: r in y'.kept ==> SameRevision(y, y', values.Keys, r)
    ensures forall w :: w in y'.line ==> SameBase(y, y', values.Keys, w)
  {
    hide StartsWith, WorldKey, RevisionKey, BaseKey, FlatMeans, Means;
    forall name ensures WorldKey(name) !in values && RevisionKey(name) !in values && BaseKey(name) !in values {
      KeysApart(name, name);
      assert forall k :: k in values ==> T.ValidKey(k);
    }
  }

  // ---- Update ----

  lemma WorldKnown(sha: Bytes -> Hash, p: Priority, payloads: set<Bytes>, y: System, w: Bytes)
    requires Inv(sha, p, payloads, y)
    requires if Flat(y.state, w) then ROOT in y.state.roots else WorldKey(w) in y.state.roots
    ensures w in y.want && WorldMeans(p, y.state, w, y.want[w])
  {
    hide L.StateOk, Drawn, RevisionsMean, BasesMean, WorldMeans, StartsWith, WorldKey;
    RootPrefix();
    KeyNames(w);
    if Flat(y.state, w) {
      assert KeyOk(y, ROOT, y.state.roots[ROOT]);
    } else {
      assert KeyOk(y, WorldKey(w), y.state.roots[WorldKey(w)]);
    }
  }

  lemma UpdateShape(sha: Bytes -> Hash, p: Priority, payloads: set<Bytes>, y: System, e: Event)
    requires Ready(sha, p, payloads, y, e) && e.Update?
    ensures var y', inner := After(sha, p, y, e), Inner(e.changes);
      Inv(sha, p, payloads, y) && TellsApart(sha, payloads) && e.world in y.want &&
      WorldMeans(p, y.state, e.world, y.want[e.world]) &&
      y'.want == y.want[e.world := ApplyEdits(y.want[e.world], inner)] && y'.line == y.line && y'.kept == y.kept &&
      Grows(y, y') &&
      BatchOf(sha, y.state, e) == UpdateBatch(sha, y.state, e.world, e.changes, e.plan) &&
      (inner != map[] ==> PlanFor(p, y.state, e.world, DeltaOf(sha, inner), e.plan)) &&
      ValuesIn(UpdateBatch(sha, y.state, e.world, e.changes, e.plan)) <= payloads &&
      PayloadsIn(inner) + NodePayloads(sha, e.plan.objects) <= payloads
  {
    hide Inv, TellsApart, Accepted, Committed, WorldKey, UpdateBatch, ApplyEdits, Inner, DeltaOf, PlanFor, ViewName,
         WorldMeans, PayloadsIn, NodePayloads, ValuesIn;
    WorldKnown(sha, p, payloads, y, e.world);
  }

  lemma UpdateStep(sha: Bytes -> Hash, p: Priority, payloads: set<Bytes>, y: System, e: Event)
    requires Ready(sha, p, payloads, y, e) && e.Update?
    ensures Inv(sha, p, payloads, After(sha, p, y, e))
  {
    hide *;
    ReadyEffect(sha, p, payloads, y, e);
    UpdateShape(sha, p, payloads, y, e);
    var y', ms, w := After(sha, p, y, e), BatchOf(sha, y.state, e), e.world;
    var keys := if Inner(e.changes) == map[] then {} else {WorldKey(w)};
    UpdateNames(sha, y', y.state, w, e.changes, e.plan);
    StepIs(sha, p, payloads, y, ms, y');
    if Inner(e.changes) == map[] {
      NoEdits(y.want[w]);
    } else {
      UpdateMeans(sha, p, payloads, y, w, e.changes, e.plan, y'.state);
    }
    UpdateSame(p, y, y', w, keys);
    StepInv(sha, p, payloads, y, ms, y', keys);
  }

  lemma NoEdits(c: Contents)
    ensures ApplyEdits(c, map[]) == c
  {
  }

  lemma UpdateNames(sha: Bytes -> Hash, y': System, s: L.State, w: Bytes, changes: Edits, plan: T.Plan)
    requires w in y'.want
    ensures var ms := UpdateBatch(sha, s, w, changes, plan);
      OnlyKeys(ms, if Inner(changes) == map[] then {} else {WorldKey(w)}) && forall m :: m in ms ==> Names(sha, y', m)
  {
    hide StartsWith, Side, SideWrite, UpdateBatch, Inner, TreeManifest, WorldKey, G.Registry, RegistryKey;
    UpdateWrites(sha, s, w, changes, plan);
    KeyNames(w);
    OneKind(WorldKey(w));
    KeysApart(w, w);
    forall m | m in UpdateBatch(sha, s, w, changes, plan) && SideWrite(sha, m)
      ensures Side(m.key) && Names(sha, y', m)
    {
      SideWriteNames(sha, y', m);
    }
  }

  lemma UpdateSame(p: Priority, y: System, y': System, w: Bytes, keys: set<Bytes>)
    requires w in y.want && w in y'.want && y'.want == y.want[w := y'.want[w]] && y'.line == y.line && y'.kept == y.kept
    requires keys <= {WorldKey(w)} && (keys == {} ==> y'.want[w] == y.want[w])
    requires (keys != {} ==> WorldMeans(p, y'.state, w, y'.want[w]))
    ensures forall x :: x in y'.want ==> SameWorld(y, y', keys, x) || WorldMeans(p, y'.state, x, y'.want[x])
    ensures forall r :: r in y'.kept ==> SameRevision(y, y', keys, r)
    ensures forall x :: x in y'.line ==> SameBase(y, y', keys, x)
  {
    hide StartsWith, WorldKey, RevisionKey, BaseKey, WorldMeans;
    forall x
      ensures (x != w ==> WorldKey(x) != WorldKey(w)) && RevisionKey(x) != WorldKey(w) && BaseKey(x) != WorldKey(w)
    {
      KeysApart(x, w);
      KeysApart(w, x);
    }
    KeysApart(w, w);
  }

  /** An update makes its World mean the edited contents. */
  lemma UpdateMeans(sha: Bytes -> Hash, p: Priority, payloads: set<Bytes>, y: System, w: Bytes, changes: Edits,
                    plan: T.Plan, s': L.State)
    requires Inv(sha, p, payloads, y) && TellsApart(sha, payloads) && w in y.want
    requires WorldMeans(p, y.state, w, y.want[w])
    requires Inner(changes) != map[] && PlanFor(p, y.state, w, DeltaOf(sha, Inner(changes)), plan)
    requires PayloadsIn(Inner(changes)) + NodePayloads(sha, plan.objects) <= payloads
    requires ValuesIn(UpdateBatch(sha, y.state, w, changes, plan)) <= payloads
    requires Effect(sha, y.state, UpdateBatch(sha, y.state, w, changes, plan), s')
    ensures WorldMeans(p, s', w, ApplyEdits(y.want[w], Inner(changes)))
  {
    hide *;
    var inner, ms := Inner(changes), UpdateBatch(sha, y.state, w, changes, plan);
    var some := PayloadsIn(inner) + NodePayloads(sha, plan.objects);
    UpdateHas(sha, y.state, w, changes, plan);
    InvParts(sha, p, payloads, y);
    AllStored(sha, payloads, y, some, ms, s');
    EffectExtends(sha, y.state, ms, s');
    PutLands(sha, y.state, ms, s', WorldKey(w), TreeManifest(sha, plan));
    PlanMeans(sha, p, payloads, y.state, s', w, y.want[w], inner, plan);
    WorldByKey(p, s', w, ApplyEdits(y.want[w], inner));
  }

  lemma InvParts(sha: Bytes -> Hash, p: Priority, payloads: set<Bytes>, y: System)
    requires Inv(sha, p, payloads, y)
    ensures L.StateOk(sha, y.state) && L.Hashed(sha, y.state.objects) && Drawn(payloads, y.state.objects)
    ensures KeysNamed(y)
  {
    hide Drawn, KeysNamed, L.Hashed, L.Anchored, WorldsMean, RevisionsMean, BasesMean;
  }

  lemma UpdateHas(sha: Bytes -> Hash, s: L.State, w: Bytes, changes: Edits, plan: T.Plan)
    requires Inner(changes) != map[]
    ensures
      var ms := UpdateBatch(sha, s, w, changes, plan);
      var some := PayloadsIn(Inner(changes)) + NodePayloads(sha, plan.objects);
      (forall m :: m in List(Unregistered(sha, s.roots, some)) ==> m in ms) &&
      Mutation(WorldKey(w), Some(TreeManifest(sha, plan)), None) in ms
  {
    hide List, Unregistered, Inner, PayloadsIn, NodePayloads, MarkersIn, TreeManifest, WorldKey;
  }

  lemma WorldByKey(p: Priority, s: L.State, w: Bytes, c: Contents)
    requires WorldKey(w) in s.roots && Means(p, s.objects, s.roots[WorldKey(w)], c)
    ensures WorldMeans(p, s, w, c)
  {
    hide Means, WorldKey;
  }

  // ---- Snapshot ----

  lemma SnapshotShape(sha: Bytes -> Hash, p: Priority, payloads: set<Bytes>, y: System, e: Event)
    requires Ready(sha, p, payloads, y, e) && e.Snapshot?
    ensures var y', w := After(sha, p, y, e), e.view; var captured := [WantOf(y, w)] + LineOf(y, w);
      Inv(sha, p, payloads, y) && TellsApart(sha, payloads) && w in y.want && WorldMeans(p, y.state, w, y.want[w]) &&
      y'.want == y.want && y'.kept == y.kept[e.name := captured] && y'.line == y.line[w := captured] && Grows(y, y') &&
      BatchOf(sha, y.state, e) == SnapshotBatch(sha, y.state, w, e.name, e.plan) &&
      (Flat(y.state, w) ==>
        PlanFor(p, y.state, w, map[], e.plan) &&
        NodePayloads(sha, e.plan.objects) + {TreeManifest(sha, e.plan)} <= payloads) &&
      (BaseKey(w) in y.state.roots ==> BaseWell(y.state, w)) &&
      ValuesIn(SnapshotBatch(sha, y.state, w, e.name, e.plan)) <= payloads
  {
    hide Inv, TellsApart, Accepted, Committed, WorldKey, RevisionKey, BaseKey, SnapshotBatch, PlanFor, ViewName,
         WorldMeans, NodePayloads, TreeManifest, ValuesIn,
         BaseWell, WantOf, LineOf;
    WorldKnown(sha, p, payloads, y, e.view);
  }

  lemma SnapshotStep(sha: Bytes -> Hash, p: Priority, payloads: set<Bytes>, y: System, e: Event)
    requires Ready(sha, p, payloads, y, e) && e.Snapshot?
    ensures Inv(sha, p, payloads, After(sha, p, y, e))
  {
    hide *;
    ReadyEffect(sha, p, payloads, y, e);
    SnapshotShape(sha, p, payloads, y, e);
    var y', ms, w := After(sha, p, y, e), BatchOf(sha, y.state, e), e.view;
    var captured := [WantOf(y, w)] + LineOf(y, w);
    SnapshotNames(sha, y', y.state, w, e.name, e.plan);
    StepIs(sha, p, payloads, y, ms, y');
    SnapshotMeans(sha, p, payloads, y, w, e.name, e.plan, y'.state);
    SnapshotSame(p, y, y', w, e.name, captured);
    StepInv(sha, p, payloads, y, ms, y', {RevisionKey(e.name), BaseKey(w)});
  }

  lemma SnapshotNames(sha: Bytes -> Hash, y': System, s: L.State, w: Bytes, name: Bytes, plan: T.Plan)
    requires name in y'.kept && w in y'.line
    ensures var ms := SnapshotBatch(sha, s, w, name, plan);
      OnlyKeys(ms, {RevisionKey(name), BaseKey(w)}) && forall m :: m in ms ==> Names(sha, y', m)
  {
    hide StartsWith, Side, SideWrite, SnapshotBatch, Descriptor, RevisionKey, BaseKey, G.Registry, RegistryKey;
    SnapshotWrites(sha, s, w, name, plan);
    KeyNames(w);
    KeyNames(name);
    OneKind(RevisionKey(name));
    OneKind(BaseKey(w));
    forall m | m in SnapshotBatch(sha, s, w, name, plan) && SideWrite(sha, m) ensures Side(m.key) && Names(sha, y', m) {
      SideWriteNames(sha, y', m);
    }
  }

  lemma SnapshotSame(p: Priority, y: System, y': System, w: Bytes, name: Bytes, captured: seq<Contents>)
    requires y'.want == y.want && y'.kept == y.kept[name := captured] && y'.line == y.line[w := captured]
    requires RevisionMeans(p, y'.state, name, captured) && BaseMeans(p, y'.state, w, captured)
    ensures var keys := {RevisionKey(name), BaseKey(w)};
      (forall x :: x in y'.want ==> SameWorld(y, y', keys, x)) &&
      (forall r :: r in y'.kept ==> SameRevision(y, y', keys, r) || RevisionMeans(p, y'.state, r, y'.kept[r])) &&
      (forall x :: x in y'.line ==> SameBase(y, y', keys, x) || BaseMeans(p, y'.state, x, y'.line[x]))
  {
    hide StartsWith, WorldKey, RevisionKey, BaseKey, RevisionMeans, BaseMeans;
    KeysApart(name, w);
    KeysApart(w, name);
    forall x ensures WorldKey(x) != RevisionKey(name) && WorldKey(x) != BaseKey(w) {
      KeysApart(x, name);
      KeysApart(x, w);
    }
    forall r ensures (r != name ==> RevisionKey(r) != RevisionKey(name)) && RevisionKey(r) != BaseKey(w) {
      KeysApart(r, name);
      KeysApart(r, w);
    }
    forall x ensures (x != w ==> BaseKey(x) != BaseKey(w)) && BaseKey(x) != RevisionKey(name) {
      KeysApart(x, w);
      KeysApart(name, x);
    }
  }

  /** The lineage the World's base stands for is the recorded one. */
  lemma ParentMeans(sha: Bytes -> Hash, p: Priority, payloads: set<Bytes>, y: System, w: Bytes)
    requires Inv(sha, p, payloads, y) && (BaseKey(w) in y.state.roots ==> BaseWell(y.state, w))
    ensures Lineage(p, y.state.objects, ParentId(y.state, w), LineOf(y, w))
  {
    hide L.StateOk, Drawn, RevisionsMean, WorldsMean, StartsWith, BaseKey, Means;
    KeyNames(w);
    if BaseKey(w) in y.state.roots {
      assert KeyOk(y, BaseKey(w), y.state.roots[BaseKey(w)]);
      assert BaseMeans(p, y.state, w, y.line[w]);
    } else if w in y.line {
      assert BaseMeans(p, y.state, w, y.line[w]);
    }
  }

  /** The captured manifest means what the World means. */
  lemma CapturedMeans(sha: Bytes -> Hash, p: Priority, payloads: set<Bytes>, y: System, w: Bytes, plan: T.Plan,
                      ms: seq<Mutation>, s': L.State)
    requires Inv(sha, p, payloads, y) && TellsApart(sha, payloads) && w in y.want
    requires WorldMeans(p, y.state, w, y.want[w])
    requires Flat(y.state, w) ==>
      PlanFor(p, y.state, w, map[], plan) && NodePayloads(sha, plan.objects) + {TreeManifest(sha, plan)} <= payloads
    requires Effect(sha, y.state, ms, s') && forall m :: m in Staged(sha, y.state, w, plan) ==> m in ms
    ensures Means(p, s'.objects, ManifestId(sha, y.state, w, plan), y.want[w])
  {
    hide *;
    EffectExtends(sha, y.state, ms, s');
    StagedIs(sha, y.state, w, plan);
    InvParts(sha, p, payloads, y);
    if Flat(y.state, w) {
      var some := NodePayloads(sha, plan.objects) + {TreeManifest(sha, plan)};
      AllStored(sha, payloads, y, some, ms, s');
      NoDelta(sha);
      PlanMeans(sha, p, payloads, y.state, s', w, y.want[w], map[], plan);
      NoEdits(y.want[w]);
    } else {
      WorldHead(p, y.state, w, y.want[w]);
      MeansMore(p, y.state.objects, s'.objects, y.state.roots[WorldKey(w)], y.want[w]);
    }
  }

  lemma EffectExtends(sha: Bytes -> Hash, s: L.State, ms: seq<Mutation>, s': L.State)
    requires Effect(sha, s, ms, s')
    ensures Extends(s.objects, s'.objects) && Rest(s, ms, s')
  {
    hide Extends, Rest, Lands, Stored;
  }

  lemma StagedIs(sha: Bytes -> Hash, s: L.State, w: Bytes, plan: T.Plan)
    ensures Flat(s, w) ==>
      Staged(sha, s, w, plan) ==
        List(Unregistered(sha, s.roots, NodePayloads(sha, plan.objects) + {TreeManifest(sha, plan)})) &&
      ManifestId(sha, s, w, plan) == sha(TreeManifest(sha, plan))
    ensures !Flat(s, w) && WorldKey(w) in s.roots ==> ManifestId(sha, s, w, plan) == s.roots[WorldKey(w)]
  {
    hide List, Unregistered, NodePayloads, TreeManifest, WorldKey, Flat;
  }

  lemma NoDelta(sha: Bytes -> Hash)
    ensures DeltaOf(sha, map[]) == map[] && PayloadsIn(map[]) == {}
  {
  }

  lemma WorldHead(p: Priority, s: L.State, w: Bytes, c: Contents)
    requires WorldMeans(p, s, w, c) && !Flat(s, w)
    ensures WorldKey(w) in s.roots && Means(p, s.objects, s.roots[WorldKey(w)], c)
  {
    hide Means, WorldKey;
  }

  /** A stored descriptor of a manifest and a parent is a revision of both. */
  lemma DescribedMeans(sha: Bytes -> Hash, p: Priority, objects: L.Objects, manifest: Hash, parent: Hash,
                       sequence: nat, c: Contents, cs: seq<Contents>)
    requires var b := RevisionBytes(manifest, parent, sequence); Stored(sha, objects, b) && sha(b) != NO_HASH
    requires Means(p, objects, manifest, c) && Lineage(p, objects, parent, cs)
    ensures Lineage(p, objects, sha(RevisionBytes(manifest, parent, sequence)), [c] + cs)
  {
    hide Means, RevisionBytes;
    RevisionFields(manifest, parent, sequence);
    assert ([c] + cs)[1..] == cs;
  }

  /** A snapshot captures the World's contents, with its base's lineage as ancestors, and
      becomes the World's base. */
  lemma SnapshotMeans(sha: Bytes -> Hash, p: Priority, payloads: set<Bytes>, y: System, w: Bytes, name: Bytes,
                      plan: T.Plan, s': L.State)
    requires Inv(sha, p, payloads, y) && TellsApart(sha, payloads) && w in y.want
    requires WorldMeans(p, y.state, w, y.want[w])
    requires Flat(y.state, w) ==>
      PlanFor(p, y.state, w, map[], plan) && NodePayloads(sha, plan.objects) + {TreeManifest(sha, plan)} <= payloads
    requires BaseKey(w) in y.state.roots ==> BaseWell(y.state, w)
    requires ValuesIn(SnapshotBatch(sha, y.state, w, name, plan)) <= payloads
    requires Effect(sha, y.state, SnapshotBatch(sha, y.state, w, name, plan), s')
    ensures RevisionMeans(p, s', name, [WantOf(y, w)] + LineOf(y, w))
    ensures BaseMeans(p, s', w, [WantOf(y, w)] + LineOf(y, w))
  {
    hide *;
    var ms, descriptor := SnapshotBatch(sha, y.state, w, name, plan), Descriptor(sha, y.state, w, plan);
    var captured := [WantOf(y, w)] + LineOf(y, w);
    SnapshotHas(sha, y.state, w, name, plan);
    EffectExtends(sha, y.state, ms, s');
    CapturedMeans(sha, p, payloads, y, w, plan, ms, s');
    ParentMeans(sha, p, payloads, y, w);
    LineageMore(p, y.state.objects, s'.objects, ParentId(y.state, w), LineOf(y, w));
    PutLands(sha, y.state, ms, s', RevisionKey(name), descriptor);
    PutLands(sha, y.state, ms, s', BaseKey(w), sha(descriptor));
    NonZero(sha, payloads, descriptor);
    WantIs(y, w);
    DescriptorIs(sha, y.state, w, plan);
    DescribedMeans(sha, p, s'.objects, ManifestId(sha, y.state, w, plan), ParentId(y.state, w), y.state.sequence,
                   WantOf(y, w), LineOf(y, w));
    RevisionBy(sha, p, s', name, w, descriptor, captured);
  }

  lemma WantIs(y: System, w: Bytes)
    requires w in y.want
    ensures WantOf(y, w) == y.want[w]
  {
  }

  lemma DescriptorIs(sha: Bytes -> Hash, s: L.State, w: Bytes, plan: T.Plan)
    ensures Descriptor(sha, s, w, plan) == RevisionBytes(ManifestId(sha, s, w, plan), ParentId(s, w), s.sequence)
  {
    hide RevisionBytes, ManifestId, ParentId;
  }

  lemma NonZero(sha: Bytes -> Hash, payloads: set<Bytes>, v: Bytes)
    requires TellsApart(sha, payloads) && v in payloads
    ensures sha(v) != NO_HASH
  {
  }

  lemma SnapshotHas(sha: Bytes -> Hash, s: L.State, w: Bytes, name: Bytes, plan: T.Plan)
    ensures var ms, descriptor := SnapshotBatch(sha, s, w, name, plan), Descriptor(sha, s, w, plan);
      (forall m :: m in Staged(sha, s, w, plan) ==> m in ms) &&
      Mutation(RevisionKey(name), Some(descriptor), None) in ms &&
      Mutation(BaseKey(w), Some(sha(descriptor)), None) in ms
  {
    hide Staged, Descriptor, RevisionKey, BaseKey;
    var ms, descriptor := SnapshotBatch(sha, s, w, name, plan), Descriptor(sha, s, w, plan);
    var n := |Staged(sha, s, w, plan)|;
    assert ms[n] == Mutation(RevisionKey(name), Some(descriptor), None);
    assert ms[n + 1] == Mutation(BaseKey(w), Some(sha(descriptor)), None);
  }

  lemma PutLands(sha: Bytes -> Hash, s: L.State, ms: seq<Mutation>, s': L.State, k: Bytes, v: Bytes)
    requires Effect(sha, s, ms, s') && Mutation(k, Some(v), None) in ms
    ensures k in s'.roots && s'.roots[k] == sha(v) && Stored(sha, s'.objects, v) && v in ValuesIn(ms)
  {
    hide Extends, Rest, Stored;
    var m := Mutation(k, Some(v), None);
    assert Lands(sha, s', m);
    assert v in ValuesIn(ms);
  }

  lemma RevisionBy(sha: Bytes -> Hash, p: Priority, s: L.State, name: Bytes, w: Bytes, descriptor: Bytes,
                   cs: seq<Contents>)
    requires cs != [] && Lineage(p, s.objects, sha(descriptor), cs)
    requires RevisionKey(name) in s.roots && s.roots[RevisionKey(name)] == sha(descriptor)
    requires BaseKey(w) in s.roots && s.roots[BaseKey(w)] == sha(sha(descriptor))
    requires Stored(sha, s.objects, sha(descriptor))
    ensures RevisionMeans(p, s, name, cs) && BaseMeans(p, s, w, cs)
  {
    hide Lineage, RevisionKey, BaseKey;
  }

  // ---- Fork ----

  lemma ForkShape(sha: Bytes -> Hash, p: Priority, payloads: set<Bytes>, y: System, e: Event)
    requires Ready(sha, p, payloads, y, e) && e.Fork?
    ensures var y' := After(sha, p, y, e);
      Inv(sha, p, payloads, y) && RevisionWell(y.state, e.name) && e.world != MAIN &&
      e.name in y.kept && RevisionMeans(p, y.state, e.name, y.kept[e.name]) && y.kept[e.name] != [] &&
      y'.want == y.want[e.world := y.kept[e.name][0]] && y'.kept == y.kept &&
      y'.line == y.line[e.world := y.kept[e.name]] && Grows(y, y') &&
      BatchOf(sha, y.state, e) == ForkBatch(y.state, e.name, e.world)
  {
    hide Inv, TellsApart, Accepted, Committed, WorldKey, BaseKey, RevisionWell, ForkBatch, ViewName, Lineage,
         RevisionKey, Written;
    RevisionKnown(sha, p, payloads, y, e.name);
  }

  lemma RevisionKnown(sha: Bytes -> Hash, p: Priority, payloads: set<Bytes>, y: System, name: Bytes)
    requires Inv(sha, p, payloads, y) && RevisionWell(y.state, name)
    ensures name in y.kept && RevisionMeans(p, y.state, name, y.kept[name])
  {
    hide L.StateOk, Drawn, WorldsMean, BasesMean, StartsWith, RevisionKey, RevisionMeans, G.Well;
    KeyNames(name);
    assert KeyOk(y, RevisionKey(name), y.state.roots[RevisionKey(name)]);
  }

  lemma ForkStep(sha: Bytes -> Hash, p: Priority, payloads: set<Bytes>, y: System, e: Event)
    requires Ready(sha, p, payloads, y, e) && e.Fork?
    ensures Inv(sha, p, payloads, After(sha, p, y, e))
  {
    hide *;
    ReadyEffect(sha, p, payloads, y, e);
    ForkShape(sha, p, payloads, y, e);
    var y', ms, w := After(sha, p, y, e), BatchOf(sha, y.state, e), e.world;
    ForkNames(sha, y', y.state, e.name, w);
    StepIs(sha, p, payloads, y, ms, y');
    ForkMeans(sha, p, y.state, e.name, w, y.kept[e.name], y'.state);
    ForkSame(p, y, y', w, y.kept[e.name]);
    StepInv(sha, p, payloads, y, ms, y', {WorldKey(w), BaseKey(w)});
  }

  lemma ForkNames(sha: Bytes -> Hash, y': System, s: L.State, name: Bytes, w: Bytes)
    requires RevisionWell(s, name) && w in y'.want && w in y'.line
    ensures var ms := ForkBatch(s, name, w);
      OnlyKeys(ms, {WorldKey(w), BaseKey(w)}) && forall m :: m in ms ==> Names(sha, y', m)
  {
    hide StartsWith, Side, WorldKey, BaseKey, RevisionKey, G.Registry, RegistryKey;
    KeyNames(w);
    KeysApart(w, w);
    OneKind(WorldKey(w));
    OneKind(BaseKey(w));
  }

  lemma ForkSame(p: Priority, y: System, y': System, w: Bytes, cs: seq<Contents>)
    requires cs != [] && y'.want == y.want[w := cs[0]] && y'.kept == y.kept && y'.line == y.line[w := cs]
    requires WorldMeans(p, y'.state, w, cs[0]) && BaseMeans(p, y'.state, w, cs)
    ensures var keys := {WorldKey(w), BaseKey(w)};
      (forall x :: x in y'.want ==> SameWorld(y, y', keys, x) || WorldMeans(p, y'.state, x, y'.want[x])) &&
      (forall r :: r in y'.kept ==> SameRevision(y, y', keys, r)) &&
      (forall x :: x in y'.line ==> SameBase(y, y', keys, x) || BaseMeans(p, y'.state, x, y'.line[x]))
  {
    hide StartsWith, WorldKey, RevisionKey, BaseKey, WorldMeans, BaseMeans;
    KeysApart(w, w);
    forall x ensures x != w ==> WorldKey(x) != WorldKey(w) && BaseKey(x) != BaseKey(w) { KeysApart(x, w); }
    forall x ensures WorldKey(x) != BaseKey(w) && BaseKey(x) != WorldKey(w) { KeysApart(x, w); KeysApart(w, x); }
    forall r ensures RevisionKey(r) != WorldKey(w) && RevisionKey(r) != BaseKey(w) { KeysApart(w, r); KeysApart(r, w); }
  }

  /** A fork starts from the revision's contents, with the revision and its ancestors as base. */
  lemma ForkMeans(sha: Bytes -> Hash, p: Priority, s: L.State, name: Bytes, w: Bytes, cs: seq<Contents>, s': L.State)
    requires RevisionWell(s, name) && RevisionMeans(p, s, name, cs) && w != MAIN
    requires Effect(sha, s, ForkBatch(s, name, w), s')
    ensures WorldMeans(p, s', w, cs[0]) && BaseMeans(p, s', w, cs)
  {
    hide Means, WorldKey, BaseKey, RevisionKey, Extends, Rest, Stored, Effect;
    var id, ms := s.roots[RevisionKey(name)], ForkBatch(s, name, w);
    EffectExtends(sha, s, ms, s');
    assert ms[0] in ms && ms[1] in ms;
    RefLands(sha, s, ms, s', WorldKey(w), s.objects[id][8..40]);
    PutLands(sha, s, ms, s', BaseKey(w), id);
    MeansMore(p, s.objects, s'.objects, s.objects[id][8..40], cs[0]);
    LineageMore(p, s.objects, s'.objects, id, cs);
    ForkBase(sha, p, s', w, id, cs);
  }

  lemma ForkBase(sha: Bytes -> Hash, p: Priority, s: L.State, w: Bytes, id: Hash, cs: seq<Contents>)
    requires cs != [] && Lineage(p, s.objects, id, cs) && BaseKey(w) in s.roots && s.roots[BaseKey(w)] == sha(id)
    requires Stored(sha, s.objects, id)
    ensures BaseMeans(p, s, w, cs)
  {
    hide Lineage, BaseKey;
  }

  lemma RefLands(sha: Bytes -> Hash, s: L.State, ms: seq<Mutation>, s': L.State, k: Bytes, id: Hash)
    requires Effect(sha, s, ms, s') && Mutation(k, None, Some(id)) in ms
    ensures k in s'.roots && s'.roots[k] == id
  {
    hide Extends, Rest, Stored;
    assert Lands(sha, s', Mutation(k, None, Some(id)));
  }

  // ---- Other commits ----

  lemma OtherStep(sha: Bytes -> Hash, p: Priority, payloads: set<Bytes>, y: System, e: Event)
    requires Ready(sha, p, payloads, y, e) && e.Other?
    ensures Inv(sha, p, payloads, After(sha, p, y, e))
  {
    hide *;
    ReadyEffect(sha, p, payloads, y, e);
    OtherShape(sha, p, payloads, y, e);
    var y', ms := After(sha, p, y, e), BatchOf(sha, y.state, e);
    StepIs(sha, p, payloads, y, ms, y');
    AllSame(y, y');
    StepInv(sha, p, payloads, y, ms, y', {});
  }

  lemma OtherShape(sha: Bytes -> Hash, p: Priority, payloads: set<Bytes>, y: System, e: Event)
    requires Ready(sha, p, payloads, y, e) && e.Other?
    ensures var y', ms := After(sha, p, y, e), BatchOf(sha, y.state, e);
      Inv(sha, p, payloads, y) && y' == y.(state := y'.state) && Grows(y, y') && OnlyKeys(ms, {}) &&
      forall m :: m in ms ==> Names(sha, y', m)
  {
    hide Inv, TellsApart, Accepted, Committed, Written, StartsWith, RegistryKey;
  }

  lemma AllSame(y: System, y': System)
    requires y' == y.(state := y'.state)
    ensures forall w :: w in y'.want ==> SameWorld(y, y', {}, w)
    ensures forall r :: r in y'.kept ==> SameRevision(y, y', {}, r)
    ensures forall w :: w in y'.line ==> SameBase(y, y', {}, w)
  {
    hide StartsWith, WorldKey, RevisionKey, BaseKey;
  }

  // ---- Collection ----

  /** In an undamaged store everything live is there, so a collection keeps exactly that. */
  lemma CollectedSame(sha: Bytes -> Hash, s: L.State)
    requires L.StateOk(sha, s) && !G.Damaged(s.objects, s.roots)
    ensures G.SameLive(s, Collected(s)) && G.SameRoots(s, Collected(s))
  {
    hide G.Live, G.Registry, G.Traced, L.Hashed;
    forall h | G.Live(s.objects, s.roots, h) ensures h in s.objects { LiveStored(s.objects, s.roots, h); }
  }

  lemma LiveStored(objects: L.Objects, roots: Refs, h: Bytes)
    requires G.Live(objects, roots, h) && L.Anchored(objects, roots) && !G.Damaged(objects, roots)
    ensures h in objects
  {
    hide G.Traced, G.BadBase, G.WellFormed;
    if !(exists k :: G.Retains(roots, k) && roots[k] == h) {
      var i :| G.Traced(objects, roots, i) && G.Reaches(objects, i, h);
      assert !G.Broken(objects, roots, i);
    }
  }

  lemma CollectedOk(sha: Bytes -> Hash, payloads: set<Bytes>, s: L.State)
    requires L.StateOk(sha, s) && Drawn(payloads, s.objects) && G.SameLive(s, Collected(s))
    requires G.SameRoots(s, Collected(s)) && s.sequence < U64 - 1
    ensures L.StateOk(sha, Collected(s)) && Drawn(payloads, Collected(s).objects)
  {
    hide G.Live, G.Registry, Collected;
    var s' := Collected(s);
    forall k | k in s'.roots ensures s'.roots[k] in s'.objects {
      if !G.Registry(k) { G.RetainedLive(s.objects, s.roots, k); }
    }
    CollectedCounts(s);
  }

  lemma CollectedCounts(s: L.State)
    ensures var s' := Collected(s);
      s'.objectCount == |s'.objects| && s'.rootCount == |s'.roots| && s'.sequence == s.sequence + 1
  {
    hide G.Live, G.Registry;
  }

  lemma StartTraced(s: L.State, k: Bytes, i: G.Item)
    requires k in s.roots && !G.Registry(k) && s.roots[k] in s.objects && i in G.StartOf(s.objects, k, s.roots[k])
    ensures G.Traced(s.objects, s.roots, i)
  {
    hide G.StartOf, G.Traced, G.Registry;
    assert G.Retains(s.roots, k);
    assert G.Starts(s.objects, s.roots, i);
    G.TracedStart(s.objects, s.roots, i);
  }

  lemma WorldKept(sha: Bytes -> Hash, p: Priority, s: L.State, s': L.State, w: Bytes, c: Contents)
    requires WorldMeans(p, s, w, c) && L.Anchored(s.objects, s.roots) && G.SameLive(s, s') && G.SameRoots(s, s')
    ensures WorldMeans(p, s', w, c)
  {
    hide G.Live, Means, StartsWith, WorldKey, KeysOk;
    KeyNames(w);
    OneKind(WorldKey(w));
    if Flat(s, w) {
      KeyNames(MAIN);
      OneKind(WorldKey(MAIN));
      FlatKept(s, s', c);
    } else {
      var id := s.roots[WorldKey(w)];
      MeansNonZero(p, s.objects, id, c);
      assert G.Item(id, G.Manifest) in G.StartOf(s.objects, WorldKey(w), id);
      StartTraced(s, WorldKey(w), G.Item(id, G.Manifest));
      MeansKept(p, s, s', id, c);
    }
  }

  lemma MeansNonZero(p: Priority, objects: L.Objects, id: Bytes, c: Contents)
    requires Means(p, objects, id, c)
    ensures id != NO_HASH && id in objects
  {
    hide Represents, Ordered, Map, T.Height, KeysOk, Holds;
    var t :| TreeMeans(p, objects, id, t, c);
  }

  lemma FlatKept(s: L.State, s': L.State, c: Contents)
    requires FlatMeans(s, c) && G.SameLive(s, s') && G.SameRoots(s, s')
    ensures FlatMeans(s', c)
  {
    hide G.Live, StartsWith, KeysOk;
    forall k | k in s.roots && StartsWith(k, PREFIX)
      ensures k in s'.roots && s'.roots[k] == s.roots[k] && s.roots[k] in s'.objects
    {
      OneKind(k);
      G.RetainedLive(s.objects, s.roots, k);
    }
    forall k | k in s'.roots ensures k in s.roots && s'.roots[k] == s.roots[k] { }
    assert FlatRefs(s'.roots) == FlatRefs(s.roots);
  }

  lemma RevisionKept(p: Priority, s: L.State, s': L.State, name: Bytes, cs: seq<Contents>)
    requires RevisionMeans(p, s, name, cs) && L.Anchored(s.objects, s.roots) && G.SameLive(s, s') && G.SameRoots(s, s')
    ensures RevisionMeans(p, s', name, cs)
  {
    hide G.Live, Means, StartsWith, RevisionKey;
    KeyNames(name);
    OneKind(RevisionKey(name));
    var id := s.roots[RevisionKey(name)];
    assert G.Item(id, G.Revision) in G.StartOf(s.objects, RevisionKey(name), id);
    StartTraced(s, RevisionKey(name), G.Item(id, G.Revision));
    LineageKept(p, s, s', id, cs);
  }

  lemma BaseKept(p: Priority, s: L.State, s': L.State, w: Bytes, cs: seq<Contents>)
    requires BaseMeans(p, s, w, cs) && L.Anchored(s.objects, s.roots) && G.SameLive(s, s') && G.SameRoots(s, s')
    ensures BaseMeans(p, s', w, cs)
  {
    hide G.Live, Means, StartsWith, BaseKey;
    KeyNames(w);
    OneKind(BaseKey(w));
    var id := s.roots[BaseKey(w)];
    assert G.Item(s.objects[id], G.Revision) in G.StartOf(s.objects, BaseKey(w), id);
    StartTraced(s, BaseKey(w), G.Item(s.objects[id], G.Revision));
    G.RetainedLive(s.objects, s.roots, BaseKey(w));
    LineageKept(p, s, s', s.objects[id], cs);
  }

  lemma CollectionStep(sha: Bytes -> Hash, p: Priority, payloads: set<Bytes>, y: System, e: Event)
    requires Ready(sha, p, payloads, y, e) && e.Collection?
    ensures Inv(sha, p, payloads, After(sha, p, y, e))
  {
    hide Collected, G.SameLive, G.SameRoots, G.Damaged, WorldMeans, RevisionMeans, BaseMeans, Drawn, L.Hashed,
         L.Anchored, KeyOk, TellsApart;
    var s, y' := y.state, After(sha, p, y, e);
    CollectedSame(sha, s);
    CollectedOk(sha, payloads, s);
    forall w | w in y.want ensures WorldMeans(p, y'.state, w, y.want[w]) {
      WorldKept(sha, p, s, y'.state, w, y.want[w]);
    }
    forall r | r in y.kept ensures RevisionMeans(p, y'.state, r, y.kept[r]) {
      RevisionKept(p, s, y'.state, r, y.kept[r]);
    }
    forall w | w in y.line ensures BaseMeans(p, y'.state, w, y.line[w]) { BaseKept(p, s, y'.state, w, y.line[w]); }
    CollectedNames(y, y');
  }

  lemma CollectedNames(y: System, y': System)
    requires KeysNamed(y) && G.SameRoots(y.state, y'.state) && y' == y.(state := y'.state)
    ensures KeysNamed(y')
  {
    hide StartsWith, G.Live, G.Registry, RegistryKey;
    forall k | k in y'.state.roots ensures KeyOk(y', k, y'.state.roots[k]) { assert KeyOk(y, k, y.state.roots[k]); }
  }

  // ---- Every run ----

  lemma EmptyInv(sha: Bytes -> Hash, p: Priority, payloads: set<Bytes>)
    ensures Inv(sha, p, payloads, EMPTY)
  {
  }

  lemma EventStep(sha: Bytes -> Hash, p: Priority, payloads: set<Bytes>, y: System, e: Event)
    requires Inv(sha, p, payloads, y) && TellsApart(sha, payloads)
    requires Enabled(sha, p, y.state, e) ==> Written(sha, p, y.state, e) <= payloads
    ensures Inv(sha, p, payloads, After(sha, p, y, e))
  {
    hide Inv, TellsApart, Enabled, Written, StateAfter;
    if Enabled(sha, p, y.state, e) {
      match e
      case Initialize(_) => InitializeStep(sha, p, payloads, y, e);
      case Update(_, _, _) => UpdateStep(sha, p, payloads, y, e);
      case Snapshot(_, _, _) => SnapshotStep(sha, p, payloads, y, e);
      case Fork(_, _) => ForkStep(sha, p, payloads, y, e);
      case Other(_) => OtherStep(sha, p, payloads, y, e);
      case Collection => CollectionStep(sha, p, payloads, y, e);
    }
  }

  lemma {:induction false} RunInv(sha: Bytes -> Hash, p: Priority, payloads: set<Bytes>, y: System, events: seq<Event>)
    requires Inv(sha, p, payloads, y) && TellsApart(sha, payloads) && Within(sha, p, payloads, y, events)
    ensures Inv(sha, p, payloads, Run(sha, p, y, events))
    decreases |events|
  {
    hide Inv, TellsApart, Enabled, Written, After;
    if events != [] {
      EventStep(sha, p, payloads, y, events[0]);
      RunInv(sha, p, payloads, After(sha, p, y, events[0]), events[1..]);
    }
  }

  // ---- No damage ----

  /** The record is what its kind says, down to its last descendant. */
  ghost predicate Sound(p: Priority, objects: L.Objects, i: G.Item) {
    match i.kind
    case Revision => exists cs :: cs != [] && Lineage(p, objects, i.id, cs)
    case Manifest => exists c :: Means(p, objects, i.id, c)
    case Node => exists t: Id :: t.Node? && Represents(objects, i.id, t)
  }

  lemma SoundStart(sha: Bytes -> Hash, p: Priority, payloads: set<Bytes>, y: System, i: G.Item)
    requires Inv(sha, p, payloads, y) && G.Starts(y.state.objects, y.state.roots, i)
    ensures Sound(p, y.state.objects, i)
  {
    hide Inv, StartsWith, Sound, G.Registry;
    var s := y.state;
    var k :| G.Retains(s.roots, k) && s.roots[k] in s.objects && i in G.StartOf(s.objects, k, s.roots[k]);
    if StartsWith(k, G.WORLDS) {
      SoundWorld(sha, p, payloads, y, k);
    } else if StartsWith(k, G.REVISIONS) {
      SoundRevision(sha, p, payloads, y, k);
    } else {
      SoundBase(sha, p, payloads, y, k);
    }
  }

  lemma SoundWorld(sha: Bytes -> Hash, p: Priority, payloads: set<Bytes>, y: System, k: Bytes)
    requires Inv(sha, p, payloads, y) && k in y.state.roots && StartsWith(k, G.WORLDS)
    ensures Sound(p, y.state.objects, G.Item(y.state.roots[k], G.Manifest))
  {
    hide L.StateOk, Drawn, StartsWith, Means, RevisionsMean, BasesMean, WorldKey, RegistryKey;
    NameOfKey(k);
    assert KeyOk(y, k, y.state.roots[k]);
    var w := k[|G.WORLDS|..];
    assert WorldMeans(p, y.state, w, y.want[w]);
  }

  lemma SoundRevision(sha: Bytes -> Hash, p: Priority, payloads: set<Bytes>, y: System, k: Bytes)
    requires Inv(sha, p, payloads, y) && k in y.state.roots && StartsWith(k, G.REVISIONS)
    ensures Sound(p, y.state.objects, G.Item(y.state.roots[k], G.Revision))
  {
    hide L.StateOk, Drawn, StartsWith, Lineage, WorldsMean, BasesMean, RevisionKey, RegistryKey;
    NameOfKey(k);
    assert KeyOk(y, k, y.state.roots[k]);
    var r := k[|G.REVISIONS|..];
    assert RevisionMeans(p, y.state, r, y.kept[r]);
  }

  lemma SoundBase(sha: Bytes -> Hash, p: Priority, payloads: set<Bytes>, y: System, k: Bytes)
    requires Inv(sha, p, payloads, y) && k in y.state.roots && StartsWith(k, G.BASES)
    ensures var objects, id := y.state.objects, y.state.roots[k];
      id in objects && |objects[id]| == 32 && Sound(p, objects, G.Item(objects[id], G.Revision))
  {
    hide L.StateOk, Drawn, StartsWith, Lineage, WorldsMean, RevisionsMean, BaseKey, RegistryKey;
    NameOfKey(k);
    assert KeyOk(y, k, y.state.roots[k]);
    var w := k[|G.BASES|..];
    assert BaseMeans(p, y.state, w, y.line[w]);
  }

  lemma SoundChild(p: Priority, objects: L.Objects, i: G.Item, c: G.Item)
    requires Sound(p, objects, i) && c in G.ChildrenOf(objects, i)
    ensures Sound(p, objects, c)
  {
    hide Means, Num, Ordered, Map, T.Height, Holds, KeysOk;
    match i.kind
    case Revision =>
      var cs :| cs != [] && Lineage(p, objects, i.id, cs);
      assert Means(p, objects, objects[i.id][8..40], cs[0]) && Lineage(p, objects, objects[i.id][40..72], cs[1..]);
      assert c.kind.Revision? ==> cs[1..] != [];
    case Manifest =>
      var t := SoundManifest(p, objects, i.id);
    case Node =>
      var t: Id :| t.Node? && Represents(objects, i.id, t);
      assert Represents(objects, c.id, t.left) || Represents(objects, c.id, t.right);
  }

  lemma SoundManifest(p: Priority, objects: L.Objects, id: Bytes) returns (t: Id)
    requires Sound(p, objects, G.Item(id, G.Manifest))
    ensures Manifest(objects, id, t)
  {
    hide Represents, Ordered, Map, T.Height, Holds, KeysOk;
    var c :| Means(p, objects, id, c);
    t :| TreeMeans(p, objects, id, t, c);
  }

  lemma {:induction false} SoundPath(sha: Bytes -> Hash, p: Priority, payloads: set<Bytes>, y: System,
                                     path: seq<G.Item>)
    requires Inv(sha, p, payloads, y) && G.Path(y.state.objects, y.state.roots, path)
    ensures Sound(p, y.state.objects, path[|path| - 1])
  {
    hide Inv, Sound, G.ChildrenOf, G.Starts;
    var n := |path| - 1;
    if n == 0 {
      SoundStart(sha, p, payloads, y, path[0]);
    } else {
      assert G.Path(y.state.objects, y.state.roots, path[..n]);
      SoundPath(sha, p, payloads, y, path[..n]);
      SoundChild(p, y.state.objects, path[n - 1], path[n]);
    }
  }

  lemma SoundWell(p: Priority, objects: L.Objects, i: G.Item)
    requires Sound(p, objects, i)
    ensures G.Well(objects, i) && (i.kind.Node? ==> G.ValueAt(objects[i.id]) in objects)
  {
    hide Means, Num;
    if i.kind.Manifest? { var t := SoundManifest(p, objects, i.id); }
  }

  /** No reachable record of a reachable state is damaged, so a collection never refuses for it. */
  lemma NeverDamaged(sha: Bytes -> Hash, p: Priority, payloads: set<Bytes>, y: System)
    requires Inv(sha, p, payloads, y)
    ensures !G.Damaged(y.state.objects, y.state.roots)
  {
    hide Inv, Sound, G.Starts, G.ChildrenOf, G.Well;
    var objects, roots := y.state.objects, y.state.roots;
    forall k ensures !G.BadBase(objects, roots, k) { GoodBase(sha, p, payloads, y, k); }
    forall i ensures !G.Broken(objects, roots, i) {
      if G.Traced(objects, roots, i) {
        var path :| G.Path(objects, roots, path) && path[|path| - 1] == i;
        SoundPath(sha, p, payloads, y, path);
        SoundWell(p, objects, i);
      }
    }
  }

  lemma GoodBase(sha: Bytes -> Hash, p: Priority, payloads: set<Bytes>, y: System, k: Bytes)
    requires Inv(sha, p, payloads, y)
    ensures !G.BadBase(y.state.objects, y.state.roots, k)
  {
    hide Inv, StartsWith, Sound;
    if k in y.state.roots && StartsWith(k, G.BASES) { SoundBase(sha, p, payloads, y, k); }
  }

  // ---- The theorem ----

  /** A recorded revision stays recorded as it is: no event may take its name again. */
  lemma KeptStays(sha: Bytes -> Hash, p: Priority, payloads: set<Bytes>, y: System, e: Event, name: Bytes)
    requires Inv(sha, p, payloads, y) && name in y.kept
    ensures var y' := After(sha, p, y, e); name in y'.kept && y'.kept[name] == y.kept[name]
  {
    hide L.StateOk, Drawn, KeysNamed, WorldsMean, BasesMean, StateAfter, Accepted, Lineage, RevisionKey, BatchOf,
         PlanFor, ApplyEdits, StartsWith;
    assert RevisionMeans(p, y.state, name, y.kept[name]);
  }

  lemma {:induction false} KeptForever(sha: Bytes -> Hash, p: Priority, payloads: set<Bytes>, y: System,
                                       events: seq<Event>, name: Bytes)
    requires Inv(sha, p, payloads, y) && TellsApart(sha, payloads) && Within(sha, p, payloads, y, events)
    requires name in y.kept
    ensures var y' := Run(sha, p, y, events); name in y'.kept && y'.kept[name] == y.kept[name]
    decreases |events|
  {
    hide Inv, TellsApart, Enabled, Written, After;
    if events != [] {
      EventStep(sha, p, payloads, y, events[0]);
      KeptStays(sha, p, payloads, y, events[0], name);
      KeptForever(sha, p, payloads, After(sha, p, y, events[0]), events[1..], name);
    }
  }

  /** Over every run from an empty store, each World means what its updates, its fork or its
      initialization made it, each revision what its World was when captured, with the base's
      lineage as ancestors, and nothing reachable is damaged. */
  lemma EveryRun(sha: Bytes -> Hash, p: Priority, payloads: set<Bytes>, events: seq<Event>)
    requires TellsApart(sha, payloads) && Within(sha, p, payloads, EMPTY, events)
    ensures var y := Run(sha, p, EMPTY, events);
      L.StateOk(sha, y.state) && !G.Damaged(y.state.objects, y.state.roots) &&
      (forall w :: w in y.want ==> WorldMeans(p, y.state, w, y.want[w])) &&
      (forall r :: r in y.kept ==> RevisionMeans(p, y.state, r, y.kept[r])) &&
      (forall w :: w in y.line ==> BaseMeans(p, y.state, w, y.line[w]))
  {
    hide TellsApart, Within, Run, L.StateOk, G.Damaged, Drawn, KeysNamed, WorldMeans, RevisionMeans, BaseMeans;
    EmptyInv(sha, p, payloads);
    RunInv(sha, p, payloads, EMPTY, events);
    NeverDamaged(sha, p, payloads, Run(sha, p, EMPTY, events));
  }

  /** A revision captured on the way still means what it captured at the end, ancestors included. */
  lemma CapturedForever(sha: Bytes -> Hash, p: Priority, payloads: set<Bytes>, first: seq<Event>, rest: seq<Event>,
                        name: Bytes)
    requires TellsApart(sha, payloads) && Within(sha, p, payloads, EMPTY, first)
    requires var y := Run(sha, p, EMPTY, first); Within(sha, p, payloads, y, rest) && name in y.kept
    ensures var y := Run(sha, p, EMPTY, first); RevisionMeans(p, Run(sha, p, y, rest).state, name, y.kept[name])
  {
    hide TellsApart, Within, Run, RevisionMeans;
    EmptyInv(sha, p, payloads);
    RunInv(sha, p, payloads, EMPTY, first);
    var y := Run(sha, p, EMPTY, first);
    KeptForever(sha, p, payloads, y, rest, name);
    RunInv(sha, p, payloads, y, rest);
    assert RevisionsMean(p, Run(sha, p, y, rest));
  }
}
