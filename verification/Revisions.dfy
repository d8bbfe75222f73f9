/** The commits of updates, snapshots and forks on the LevelDB store, byte for byte
    (daemon/namespace.cpp, daemon/metadata_view.cpp). */
module Revisions {
  import opened Bytes
  import opened JournalCodec
  import opened Treap
  import opened Retention
  import T = MetadataTree
  import L = LevelStore
  import G = Garbage

  // ---- Names ----

  /** "orphan/" and "allocated/" under the history prefix, "allocated/" under the namespace's. */
  const ORPHANS: Bytes := HISTORY + [111, 114, 112, 104, 97, 110, 47]
  const MARKERS: Bytes := HISTORY + [97, 108, 108, 111, 99, 97, 116, 101, 100, 47]
  const ALLOCATED: Bytes := PREFIX + [97, 108, 108, 111, 99, 97, 116, 101, 100, 47]

  predicate NameByte(c: byte) {
    97 <= c <= 122 || 65 <= c <= 90 || 48 <= c <= 57 || c == 95 || c == 45 || c == 46
  }

  /** A World or revision name. */
  predicate ViewName(name: Bytes) {
    0 < |name| <= 64 && (forall c :: c in name ==> NameByte(c)) && name != [46] && name != [46, 46]
  }

  function WorldKey(w: Bytes): Bytes { G.WORLDS + w }

  function RevisionKey(r: Bytes): Bytes { G.REVISIONS + r }

  function BaseKey(w: Bytes): Bytes { G.BASES + w }

  function HexDigit(n: nat): byte
    requires n < 16
  {
    if n < 10 then 48 + n else 87 + n
  }

  function Hex(s: Bytes): Bytes {
    if s == [] then [] else [HexDigit(s[0] / 16), HexDigit(s[0] % 16)] + Hex(s[1..])
  }

  function RegistryKey(id: Bytes): Bytes { G.REGISTRY + Hex(id) }

  lemma {:induction false} HexInjective(a: Bytes, b: Bytes)
    requires Hex(a) == Hex(b)
    ensures a == b
  {
    if a != [] && b != [] {
      assert Hex(a)[0] == HexDigit(a[0] / 16) && Hex(a)[1] == HexDigit(a[0] % 16);
      assert Hex(b)[0] == HexDigit(b[0] / 16) && Hex(b)[1] == HexDigit(b[0] % 16);
      assert a[0] == b[0];
      assert Hex(a)[2..] == Hex(a[1..]) && Hex(b)[2..] == Hex(b[1..]);
      HexInjective(a[1..], b[1..]);
      assert a == [a[0]] + a[1..] && b == [b[0]] + b[1..];
    }
  }

  lemma RegistryInjective(a: Bytes, b: Bytes)
    requires RegistryKey(a) == RegistryKey(b)
    ensures a == b
  {
    hide Hex;
    assert Hex(a) == RegistryKey(a)[|G.REGISTRY|..] && Hex(b) == RegistryKey(b)[|G.REGISTRY|..];
    HexInjective(a, b);
  }

  /** A key that is none of the namespace's or the history's own records. */
  predicate Free(k: Bytes) {
    !StartsWith(k, PREFIX) && !G.Registry(k) && !StartsWith(k, G.WORLDS) && !StartsWith(k, G.REVISIONS) &&
    !StartsWith(k, G.BASES)
  }

  lemma StartByte(k: Bytes, start: Bytes, i: nat)
    requires StartsWith(k, start) && i < |start|
    ensures i < |k| && k[i] == start[i]
  {
    assert k[i] == k[..|start|][i];
  }

  /** The reserved names exclude each other. */
  lemma OneKind(k: Bytes)
    ensures StartsWith(k, PREFIX) ==>
      !StartsWith(k, HISTORY) && !G.Registry(k) && !StartsWith(k, G.WORLDS) && !StartsWith(k, G.REVISIONS) &&
      !StartsWith(k, G.BASES)
    ensures G.Registry(k) ==> !StartsWith(k, G.WORLDS) && !StartsWith(k, G.REVISIONS) && !StartsWith(k, G.BASES)
    ensures StartsWith(k, G.WORLDS) ==> !StartsWith(k, G.REVISIONS) && !StartsWith(k, G.BASES)
    ensures StartsWith(k, G.REVISIONS) ==> !StartsWith(k, G.BASES)
    ensures StartsWith(k, ORPHANS) || StartsWith(k, MARKERS) ==> Free(k)
    ensures !Free(k) && !StartsWith(k, PREFIX) ==> StartsWith(k, HISTORY)
  {
    hide StartsWith;
    if StartsWith(k, PREFIX) { StartByte(k, PREFIX, 7); }
    if StartsWith(k, HISTORY) { StartByte(k, HISTORY, 7); }
    if G.Registry(k) {
      StartByte(k, G.REGISTRY, 7);
      StartByte(k, G.REGISTRY, 16);
      StartByte(k, G.REGISTRY, 17);
      Longer(k, HISTORY, G.REGISTRY);
    }
    if StartsWith(k, G.WORLDS) { StartByte(k, G.WORLDS, 7); StartByte(k, G.WORLDS, 16); Longer(k, HISTORY, G.WORLDS); }
    if StartsWith(k, G.REVISIONS) {
      StartByte(k, G.REVISIONS, 7);
      StartByte(k, G.REVISIONS, 16);
      Longer(k, HISTORY, G.REVISIONS);
    }
    if StartsWith(k, G.BASES) { StartByte(k, G.BASES, 7); StartByte(k, G.BASES, 16); Longer(k, HISTORY, G.BASES); }
    if StartsWith(k, ORPHANS) { StartByte(k, ORPHANS, 7); StartByte(k, ORPHANS, 16); StartByte(k, ORPHANS, 17); }
    if StartsWith(k, MARKERS) { StartByte(k, MARKERS, 7); StartByte(k, MARKERS, 16); }
  }

  lemma Longer(k: Bytes, a: Bytes, b: Bytes)
    requires StartsWith(k, b) && a <= b
    ensures StartsWith(k, a)
  {
    assert k[..|a|] == k[..|b|][..|a|];
  }

  lemma KeyNames(name: Bytes)
    ensures StartsWith(WorldKey(name), G.WORLDS) && WorldKey(name)[|G.WORLDS|..] == name
    ensures StartsWith(RevisionKey(name), G.REVISIONS) && RevisionKey(name)[|G.REVISIONS|..] == name
    ensures StartsWith(BaseKey(name), G.BASES) && BaseKey(name)[|G.BASES|..] == name
    ensures G.Registry(RegistryKey(name))
  {
    hide Hex;
  }

  lemma NameOfKey(k: Bytes)
    ensures StartsWith(k, G.WORLDS) ==> |G.WORLDS| <= |k| && k == WorldKey(k[|G.WORLDS|..])
    ensures StartsWith(k, G.REVISIONS) ==> |G.REVISIONS| <= |k| && k == RevisionKey(k[|G.REVISIONS|..])
    ensures StartsWith(k, G.BASES) ==> |G.BASES| <= |k| && k == BaseKey(k[|G.BASES|..])
  {
  }

  // ---- Writes ----

  /** New payloads by key; None deletes the key. */
  type Edits = map<Bytes, Option<Bytes>>

  /** The edits as mutations, in key order. */
  ghost function List(edits: Edits): (ms: seq<Mutation>)
    ensures forall m :: m in ms <==> m.reference.None? && m.key in edits && edits[m.key] == m.value
  {
    var keys := SortedKeys(edits.Keys);
    assert forall i :: 0 <= i < |keys| ==> keys[i] in keys;
    var ms := seq(|keys|, i requires 0 <= i < |keys| => Mutation(keys[i], edits[keys[i]], None));
    assert forall m: Mutation :: m.reference.None? && m.key in edits && edits[m.key] == m.value ==> m in ms by {
      forall m: Mutation | m.reference.None? && m.key in edits && edits[m.key] == m.value ensures m in ms {
        var i :| 0 <= i < |keys| && keys[i] == m.key;
        assert ms[i] == m;
      }
    }
    ms
  }

  /** The payloads whose registry name is not taken yet, under that name. */
  ghost function Unregistered(sha: Bytes -> Hash, roots: Refs, payloads: set<Bytes>): Edits {
    map k | k in (set v | v in payloads :: RegistryKey(sha(v))) && k !in roots ::
      var v :| v in payloads && RegistryKey(sha(v)) == k; Some(v)
  }

  /** The edits to the World's own map, and those to open but unlinked files. */
  function Inner(changes: Edits): Edits {
    map k | k in changes && !StartsWith(k, ORPHANS) :: changes[k]
  }

  function Outer(changes: Edits): Edits {
    map k | k in changes && StartsWith(k, ORPHANS) :: changes[k]
  }

  function DeltaOf(sha: Bytes -> Hash, inner: Edits): Changes {
    map k | k in inner :: if inner[k].Some? then Some(sha(inner[k].value)) else None
  }

  function PayloadsIn(inner: Edits): set<Bytes> {
    set k | k in inner && inner[k].Some? :: inner[k].value
  }

  function NodePayloads(sha: Bytes -> Hash, nodes: seq<Id>): set<Bytes> {
    set n | n in nodes && n.Node? :: Payload(sha, n)
  }

  /** A new inode identity is marked as used for good. */
  function MarkersIn(inner: Edits): Edits {
    map m | m in MarkerKeys(inner) :: Some([])
  }

  function MarkerKeys(inner: Edits): set<Bytes> {
    set k | k in inner && inner[k].Some? && StartsWith(k, ALLOCATED) :: Marker(k)
  }

  function Marker(k: Bytes): Bytes
    requires StartsWith(k, ALLOCATED)
  {
    MARKERS + k[|ALLOCATED|..]
  }

  function ApplyEdits(c: Contents, inner: Edits): (r: Contents)
    ensures forall k :: k in r <==> if k in inner then inner[k].Some? else k in c
    ensures forall k :: k in r ==> r[k] == if k in inner then inner[k].value else c[k]
  {
    map k | k in c.Keys + inner.Keys && (if k in inner then inner[k].Some? else k in c) ::
      if k in inner then inner[k].value else c[k]
  }

  // ---- Views ----

  /** World main before its first update: its map is the roots themselves. */
  predicate Flat(s: L.State, w: Bytes) {
    w == MAIN && WorldKey(MAIN) !in s.roots
  }

  function FlatRefs(roots: Refs): Refs {
    map k | k in roots && StartsWith(k, PREFIX) :: roots[k]
  }

  function Puts(refs: Refs): Changes {
    map k | k in refs :: Some(refs[k])
  }

  /** The tree an editor starts from, and the changes it is given. */
  ghost predicate Opened(s: L.State, w: Bytes, before: Id) {
    if Flat(s, w) then before == Zero else WorldKey(w) in s.roots && Manifest(s.objects, s.roots[WorldKey(w)], before)
  }

  function AllChanges(s: L.State, w: Bytes, delta: Changes): Changes {
    if Flat(s, w) then Puts(FlatRefs(s.roots)) + delta else delta
  }

  /** What a tree editor publishes from a tree and a change list. */
  ghost predicate Planned(p: Priority, before: Id, changes: Changes, plan: T.Plan) {
    T.Acceptable(changes) && Ordered(p, plan.root) && Map(plan.root) == ApplyChanges(Map(before), changes) &&
    ROOT in Map(plan.root) && (plan.root == before || T.Height(plan.root) <= T.MAX_DEPTH) &&
    T.Present(Nodes(before) + Elements(plan.objects), plan.root) && NoRepeats(plan.objects)
  }

  /** The tree editor does publish that. */
  method PlanUpdate(p: Priority, before: Id, changes: Changes) returns (plan: Option<T.Plan>)
    requires Ordered(p, before)
    ensures plan.Some? ==> Planned(p, before, changes, plan.value)
    ensures T.Height(before) <= T.MAX_DEPTH && plan.None? ==>
      !T.Acceptable(changes) || ROOT !in ApplyChanges(Map(before), changes) ||
      (exists t :: Ordered(p, t) && Map(t) == ApplyChanges(Map(before), changes) && T.Height(t) > T.MAX_DEPTH)
  {
    hide Ordered, Map, T.Height, T.Present, T.Acceptable, ApplyChanges, NoRepeats;
    PresentNodes({}, before);
    assert Nodes(before) + {} == Nodes(before);
    var editor := new T.Editor(p, Nodes(before), before);
    plan := editor.Apply(changes);
  }

  // ---- Batches ----

  ghost function NewObjects(sha: Bytes -> Hash, roots: Refs, inner: Edits, nodes: seq<Id>): Edits {
    MarkersIn(inner) + Unregistered(sha, roots, PayloadsIn(inner) + NodePayloads(sha, nodes))
  }

  function TreeManifest(sha: Bytes -> Hash, plan: T.Plan): Bytes {
    ManifestBytes(HashOf(sha, plan.root))
  }

  ghost function UpdateBatch(sha: Bytes -> Hash, s: L.State, w: Bytes, changes: Edits, plan: T.Plan): seq<Mutation> {
    var inner := Inner(changes);
    if inner == map[] then List(Outer(changes))
    else
      List(Outer(changes)) + List(NewObjects(sha, s.roots, inner, plan.objects)) +
      [Mutation(WorldKey(w), Some(TreeManifest(sha, plan)), None)]
  }

  /** The manifest a snapshot captures: the World's own, or a new one for a flat main. */
  function ManifestId(sha: Bytes -> Hash, s: L.State, w: Bytes, plan: T.Plan): Hash {
    if Flat(s, w) then sha(TreeManifest(sha, plan))
    else if WorldKey(w) in s.roots then s.roots[WorldKey(w)]
    else NO_HASH
  }

  predicate BaseWell(s: L.State, w: Bytes) {
    BaseKey(w) in s.roots && s.roots[BaseKey(w)] in s.objects && |s.objects[s.roots[BaseKey(w)]]| == 32
  }

  function ParentId(s: L.State, w: Bytes): Hash {
    if BaseWell(s, w) then s.objects[s.roots[BaseKey(w)]] else NO_HASH
  }

  function Descriptor(sha: Bytes -> Hash, s: L.State, w: Bytes, plan: T.Plan): Bytes {
    RevisionBytes(ManifestId(sha, s, w, plan), ParentId(s, w), s.sequence)
  }

  ghost function Staged(sha: Bytes -> Hash, s: L.State, w: Bytes, plan: T.Plan): seq<Mutation> {
    if Flat(s, w)
    then List(Unregistered(sha, s.roots, NodePayloads(sha, plan.objects) + {TreeManifest(sha, plan)}))
    else []
  }

  ghost function SnapshotBatch(sha: Bytes -> Hash, s: L.State, w: Bytes, name: Bytes, plan: T.Plan): seq<Mutation> {
    var descriptor := Descriptor(sha, s, w, plan);
    Staged(sha, s, w, plan) +
    [Mutation(RevisionKey(name), Some(descriptor), None), Mutation(BaseKey(w), Some(sha(descriptor)), None)]
  }

  predicate RevisionWell(s: L.State, name: Bytes) {
    RevisionKey(name) in s.roots && G.Well(s.objects, G.Item(s.roots[RevisionKey(name)], G.Revision))
  }

  function ForkBatch(s: L.State, name: Bytes, w: Bytes): seq<Mutation>
    requires RevisionWell(s, name)
  {
    var id := s.roots[RevisionKey(name)];
    [Mutation(WorldKey(w), None, Some(s.objects[id][8..40])), Mutation(BaseKey(w), Some(id), None)]
  }

  // ---- Events ----

  datatype Event =
    | Initialize(values: Contents)
    | Update(world: Bytes, changes: Edits, plan: T.Plan)
    | Snapshot(view: Bytes, name: Bytes, plan: T.Plan)
    | Fork(name: Bytes, world: Bytes)
    | Other(mutations: seq<Mutation>)
    | Collection

  ghost predicate PlanFor(p: Priority, s: L.State, w: Bytes, delta: Changes, plan: T.Plan) {
    exists before :: Opened(s, w, before) && Planned(p, before, AllChanges(s, w, delta), plan)
  }

  /** What the operation itself checks, before the store checks the batch. */
  ghost predicate Guard(sha: Bytes -> Hash, p: Priority, s: L.State, e: Event) {
    match e
    case Initialize(values) =>
      ROOT in values && (forall k :: k in values ==> T.ValidKey(k)) && Flat(s, MAIN) &&
      (forall k :: k in s.roots ==> !StartsWith(k, PREFIX))
    case Update(w, changes, plan) =>
      ViewName(w) && changes != map[] && (if Flat(s, w) then ROOT in s.roots else WorldKey(w) in s.roots) &&
      (Inner(changes) != map[] ==> PlanFor(p, s, w, DeltaOf(sha, Inner(changes)), plan))
    case Snapshot(w, name, plan) =>
      ViewName(name) && ViewName(w) && RevisionKey(name) !in s.roots &&
      (if Flat(s, w) then ROOT in s.roots && PlanFor(p, s, w, map[], plan) else WorldKey(w) in s.roots) &&
      (BaseKey(w) in s.roots ==> BaseWell(s, w) && G.Well(s.objects, G.Item(ParentId(s, w), G.Revision)))
    case Fork(name, w) =>
      ViewName(name) && ViewName(w) && w != MAIN && WorldKey(w) !in s.roots && BaseKey(w) !in s.roots &&
      RevisionWell(s, name)
    case Other(ms) => forall m :: m in ms ==> Free(m.key)
    case Collection => s.sequence < U64 - 1 && !G.Damaged(s.objects, s.roots)
  }

  ghost function BatchOf(sha: Bytes -> Hash, s: L.State, e: Event): seq<Mutation>
    requires e.Fork? ==> RevisionWell(s, e.name)
  {
    match e
    case Initialize(values) => List(map k | k in values :: Some(values[k]))
    case Update(w, changes, plan) => UpdateBatch(sha, s, w, changes, plan)
    case Snapshot(w, name, plan) => SnapshotBatch(sha, s, w, name, plan)
    case Fork(name, w) => ForkBatch(s, name, w)
    case Other(ms) => ms
    case Collection => []
  }

  ghost predicate Accepted(sha: Bytes -> Hash, s: L.State, ms: seq<Mutation>) {
    s.sequence < U64 - 1 && L.Acceptable(sha, s.objects, s.roots, ms)
  }

  /** The event happens; otherwise it is refused and changes nothing. */
  ghost predicate Enabled(sha: Bytes -> Hash, p: Priority, s: L.State, e: Event) {
    Guard(sha, p, s, e) && (e.Collection? || Accepted(sha, s, BatchOf(sha, s, e)))
  }

  // ---- The store after an event ----

  ghost function Committed(sha: Bytes -> Hash, s: L.State, ms: seq<Mutation>): L.State {
    var objects, roots := L.Merged(s.objects, L.ValuesOf(sha, ms)), ApplyChanges(s.roots, L.UpdatesOf(sha, ms));
    L.State(objects, roots, s.sequence + 1, |objects|, |roots|)
  }

  ghost function Collected(s: L.State): L.State {
    var objects := map h | h in s.objects && G.Live(s.objects, s.roots, h) :: s.objects[h];
    var roots := map k | k in s.roots && (G.Registry(k) ==> G.Live(s.objects, s.roots, s.roots[k])) :: s.roots[k];
    L.State(objects, roots, s.sequence + 1, |objects|, |roots|)
  }

  /** The store's own commit leaves exactly that state. */
  lemma TransactIs(sha: Bytes -> Hash, s: L.State, ms: seq<Mutation>, s': L.State)
    requires L.Follows(sha, s, ms, s') && L.StateOk(sha, s')
    ensures s' == Committed(sha, s, ms)
  {
    hide L.ValuesOf, L.UpdatesOf, L.Merged, ApplyChanges, L.Hashed, L.Anchored;
  }

  /** And so does the store's own collection. */
  lemma CollectIs(sha: Bytes -> Hash, s: L.State, s': L.State)
    requires G.SameLive(s, s') && G.SameRoots(s, s') && L.StateOk(sha, s') && s'.sequence == s.sequence + 1
    ensures s' == Collected(s)
  {
    hide G.Live, G.Registry, L.Hashed, L.Anchored;
    var c := Collected(s);
    assert s'.objects == c.objects;
    assert s'.roots == c.roots;
  }

  ghost function StateAfter(sha: Bytes -> Hash, p: Priority, s: L.State, e: Event): L.State
    requires Enabled(sha, p, s, e)
  {
    if e.Collection? then Collected(s) else Committed(sha, s, BatchOf(sha, s, e))
  }

  // ---- Payloads ----

  ghost function ValuesIn(ms: seq<Mutation>): set<Bytes> {
    set m | m in ms && m.value.Some? :: m.value.value
  }

  /** Every payload the event stores or finds already registered. */
  ghost function Written(sha: Bytes -> Hash, p: Priority, s: L.State, e: Event): set<Bytes>
    requires Enabled(sha, p, s, e)
  {
    ValuesIn(BatchOf(sha, s, e)) +
    match e
    case Update(_, changes, plan) => PayloadsIn(Inner(changes)) + NodePayloads(sha, plan.objects)
    case Snapshot(w, _, plan) => if Flat(s, w) then NodePayloads(sha, plan.objects) + {TreeManifest(sha, plan)} else {}
    case _ => {}
  }

  /** The digest tells these payloads apart, and is zero on none of them. */
  ghost predicate TellsApart(sha: Bytes -> Hash, payloads: set<Bytes>) {
    (forall v :: v in payloads ==> sha(v) != NO_HASH) &&
    (forall v, w :: v in payloads && w in payloads && sha(v) == sha(w) ==> v == w)
  }
}
