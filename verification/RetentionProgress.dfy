/** When updates, snapshots, forks, initializations and collections happen, and what an update
    writes beside the tree (daemon/namespace.cpp, daemon/container.cpp). */
module RetentionProgress {
  import opened Bytes
  import opened JournalCodec
  import opened Treap
  import opened Retention
  import opened Revisions
  import opened RetentionRuns
  import T = MetadataTree
  import L = LevelStore
  import G = Garbage

  // ---- The store's keys are the history's names ----

  lemma WorldNamed(sha: Bytes -> Hash, p: Priority, payloads: set<Bytes>, y: System, w: Bytes)
    requires Inv(sha, p, payloads, y)
    ensures w in y.want <==> if Flat(y.state, w) then ROOT in y.state.roots else WorldKey(w) in y.state.roots
  {
    hide Inv, WorldKey, Means, KeysOk, StartsWith;
    if if Flat(y.state, w) then ROOT in y.state.roots else WorldKey(w) in y.state.roots {
      WorldKnown(sha, p, payloads, y, w);
    }
    if w in y.want { WorldThere(sha, p, payloads, y, w); }
  }

  lemma WorldThere(sha: Bytes -> Hash, p: Priority, payloads: set<Bytes>, y: System, w: Bytes)
    requires Inv(sha, p, payloads, y) && w in y.want
    ensures WorldMeans(p, y.state, w, y.want[w])
    ensures if Flat(y.state, w) then ROOT in y.state.roots else WorldKey(w) in y.state.roots
  {
    hide L.StateOk, Drawn, KeysNamed, RevisionsMean, BasesMean, WorldKey, Means, StartsWith;
    assert WorldMeans(p, y.state, w, y.want[w]);
    if Flat(y.state, w) { assert ROOT in FlatRefs(y.state.roots); }
  }

  lemma RevisionNamed(sha: Bytes -> Hash, p: Priority, payloads: set<Bytes>, y: System, name: Bytes)
    requires Inv(sha, p, payloads, y)
    ensures name in y.kept <==> RevisionKey(name) in y.state.roots
    ensures name in y.kept ==> RevisionMeans(p, y.state, name, y.kept[name]) && RevisionWell(y.state, name)
  {
    hide L.StateOk, Drawn, WorldsMean, BasesMean, StartsWith, RevisionKey, Means, G.WellFormed;
    KeyNames(name);
    if RevisionKey(name) in y.state.roots { assert KeyOk(y, RevisionKey(name), y.state.roots[RevisionKey(name)]); }
    if name in y.kept { assert RevisionMeans(p, y.state, name, y.kept[name]); }
  }

  lemma BaseNamed(sha: Bytes -> Hash, p: Priority, payloads: set<Bytes>, y: System, w: Bytes)
    requires Inv(sha, p, payloads, y)
    ensures w in y.line <==> BaseKey(w) in y.state.roots
    ensures w in y.line ==> BaseWell(y.state, w) && G.Well(y.state.objects, G.Item(ParentId(y.state, w), G.Revision))
  {
    hide L.StateOk, Drawn, WorldsMean, RevisionsMean, StartsWith, BaseKey, Means, G.WellFormed;
    KeyNames(w);
    if BaseKey(w) in y.state.roots { assert KeyOk(y, BaseKey(w), y.state.roots[BaseKey(w)]); }
    if w in y.line { assert BaseMeans(p, y.state, w, y.line[w]); }
  }

  // ---- Two mutations fit ----

  lemma TwoValues(sha: Bytes -> Hash, a: Mutation, b: Mutation)
    requires (a.value.Some? ==> |a.value.value| <= 80) && (b.value.Some? ==> |b.value.value| <= 80)
    ensures L.Weight(sha, [a, b]) <= 160
    ensures forall h :: h in L.ValuesOf(sha, [a, b]) ==>
      var v := L.ValuesOf(sha, [a, b])[h]; h == sha(v) && (a.value == Some(v) || b.value == Some(v))
  {
    assert [a, b][..1] == [a] && [a][..0] == [];
    assert L.ValuesOf(sha, []) == map[] && L.Weight(sha, []) == 0;
    assert L.Weight(sha, [a]) <= 80;
    var one := L.ValuesOf(sha, [a]);
    assert forall h :: h in one ==> h == sha(one[h]) && a.value == Some(one[h]);
    var two := L.ValuesOf(sha, [a, b]);
    assert two == one || (b.value.Some? && two == one[sha(b.value.value) := b.value.value]);
  }

  lemma TwoAgree(sha: Bytes -> Hash, payloads: set<Bytes>, s: L.State, a: Mutation, b: Mutation)
    requires L.StateOk(sha, s) && Drawn(payloads, s.objects) && TellsApart(sha, payloads)
    requires (a.value.Some? ==> |a.value.value| <= 80 && a.value.value in payloads)
    requires (b.value.Some? ==> |b.value.value| <= 80 && b.value.value in payloads)
    ensures L.Agrees(s.objects, L.ValuesOf(sha, [a, b])) && L.Weight(sha, [a, b]) <= 160
  {
    hide L.ValuesOf, L.Weight, L.Anchored;
    TwoValues(sha, a, b);
    var values := L.ValuesOf(sha, [a, b]);
    forall h | h in values && h in s.objects ensures s.objects[h] == values[h] {
      assert sha(s.objects[h]) == h && s.objects[h] in payloads && values[h] in payloads;
    }
  }

  lemma TwoAccepted(sha: Bytes -> Hash, payloads: set<Bytes>, s: L.State, a: Mutation, b: Mutation)
    requires L.StateOk(sha, s) && Drawn(payloads, s.objects) && TellsApart(sha, payloads)
    requires a.key != b.key && L.Doable(s.objects, s.roots, a) && L.Doable(s.objects, s.roots, b)
    requires (a.value.Some? ==> |a.value.value| <= 80 && a.value.value in payloads)
    requires (b.value.Some? ==> |b.value.value| <= 80 && b.value.value in payloads)
    ensures Accepted(sha, s, [a, b]) <==> s.sequence < U64 - 1
  {
    hide L.Doable, L.Agrees, L.ValuesOf, L.Weight, L.StateOk, Drawn, TellsApart;
    TwoAgree(sha, payloads, s, a, b);
  }

  // ---- When an event happens ----

  lemma KeysFit(name: Bytes)
    requires ViewName(name)
    ensures 0 < |WorldKey(name)| <= 1024 && 0 < |RevisionKey(name)| <= 1024 && 0 < |BaseKey(name)| <= 1024
  {
    hide NameByte;
  }

  lemma InvStore(sha: Bytes -> Hash, p: Priority, payloads: set<Bytes>, y: System)
    requires Inv(sha, p, payloads, y)
    ensures L.StateOk(sha, y.state) && Drawn(payloads, y.state.objects)
  {
  }

  lemma ForkDoable(p: Priority, s: L.State, name: Bytes, w: Bytes, cs: seq<Contents>)
    requires RevisionWell(s, name) && RevisionMeans(p, s, name, cs) && ViewName(w)
    ensures var ms := ForkBatch(s, name, w);
      |ms| == 2 && ms == [ms[0], ms[1]] && ms[0].key != ms[1].key && ms[0].value.None? &&
      ms[1].value == Some(s.roots[RevisionKey(name)]) &&
      L.Doable(s.objects, s.roots, ms[0]) && L.Doable(s.objects, s.roots, ms[1])
  {
    hide WorldKey, BaseKey, RevisionKey, Represents, Ordered, Map, Holds, ViewName, T.Height;
    KeysFit(w);
    KeysApart(w, w);
  }

  /** A fork happens exactly when both names are legal, the revision is there and the World is
      not; the new World then means the revision, with its lineage as base. */
  lemma ForkHappens(sha: Bytes -> Hash, p: Priority, payloads: set<Bytes>, y: System, name: Bytes, w: Bytes)
    requires Inv(sha, p, payloads, y) && TellsApart(sha, payloads)
    requires RevisionKey(name) in y.state.roots ==> y.state.roots[RevisionKey(name)] in payloads
    ensures Enabled(sha, p, y.state, Fork(name, w)) <==>
      ViewName(name) && ViewName(w) && w != MAIN && w !in y.want && w !in y.line && name in y.kept &&
      y.state.sequence < U64 - 1
    ensures Enabled(sha, p, y.state, Fork(name, w)) ==>
      var y' := After(sha, p, y, Fork(name, w));
      y.kept[name] != [] && WorldMeans(p, y'.state, w, y.kept[name][0]) && BaseMeans(p, y'.state, w, y.kept[name])
  {
    hide Inv, TellsApart, ViewName, WorldKey, BaseKey, RevisionKey, RevisionWell, RevisionMeans, WorldMeans, BaseMeans,
         Accepted, ForkBatch, StateAfter;
    WorldNamed(sha, p, payloads, y, w);
    BaseNamed(sha, p, payloads, y, w);
    RevisionNamed(sha, p, payloads, y, name);
    InvStore(sha, p, payloads, y);
    if ViewName(w) && name in y.kept {
      ForkDoable(p, y.state, name, w, y.kept[name]);
      var ms := ForkBatch(y.state, name, w);
      TwoAccepted(sha, payloads, y.state, ms[0], ms[1]);
    }
    if Enabled(sha, p, y.state, Fork(name, w)) {
      RevisionKnown(sha, p, payloads, y, name);
      ForkGives(sha, p, payloads, y, name, w);
    }
  }

  lemma ForkGives(sha: Bytes -> Hash, p: Priority, payloads: set<Bytes>, y: System, name: Bytes, w: Bytes)
    requires Inv(sha, p, payloads, y) && TellsApart(sha, payloads) && Enabled(sha, p, y.state, Fork(name, w))
    requires RevisionKey(name) in y.state.roots && y.state.roots[RevisionKey(name)] in payloads
    ensures var y' := After(sha, p, y, Fork(name, w));
      name in y.kept && y.kept[name] != [] && WorldMeans(p, y'.state, w, y.kept[name][0]) &&
      BaseMeans(p, y'.state, w, y.kept[name])
  {
    hide *;
    var e := Fork(name, w);
    ForkWrites(sha, p, y.state, name, w);
    ReadyIs(sha, p, payloads, y, e);
    ForkShape(sha, p, payloads, y, e);
    ReadyEffect(sha, p, payloads, y, e);
    ForkMeans(sha, p, y.state, name, w, y.kept[name], After(sha, p, y, e).state);
  }

  lemma ReadyIs(sha: Bytes -> Hash, p: Priority, payloads: set<Bytes>, y: System, e: Event)
    requires Inv(sha, p, payloads, y) && TellsApart(sha, payloads) && Enabled(sha, p, y.state, e)
    requires Written(sha, p, y.state, e) <= payloads
    ensures Ready(sha, p, payloads, y, e)
  {
    hide Inv, TellsApart, Enabled, Written;
  }

  lemma ForkWrites(sha: Bytes -> Hash, p: Priority, s: L.State, name: Bytes, w: Bytes)
    requires Enabled(sha, p, s, Fork(name, w)) && RevisionKey(name) in s.roots
    ensures Written(sha, p, s, Fork(name, w)) == {s.roots[RevisionKey(name)]}
  {
    hide Accepted, WorldKey, BaseKey, RevisionKey, ViewName, G.Well;
    var ms := ForkBatch(s, name, w);
    assert ms[1].value == Some(s.roots[RevisionKey(name)]) && ms[1] in ms;
  }

  /** A collection happens whenever the sequence can advance. */
  lemma CollectionHappens(sha: Bytes -> Hash, p: Priority, payloads: set<Bytes>, y: System)
    requires Inv(sha, p, payloads, y)
    ensures Enabled(sha, p, y.state, Collection) <==> y.state.sequence < U64 - 1
  {
    hide Inv, G.Damaged;
    NeverDamaged(sha, p, payloads, y);
  }

  lemma SnapshotDoable(sha: Bytes -> Hash, s: L.State, w: Bytes, name: Bytes, plan: T.Plan)
    requires !Flat(s, w) && ViewName(w) && ViewName(name)
    ensures var ms, b := SnapshotBatch(sha, s, w, name, plan), Descriptor(sha, s, w, plan);
      |ms| == 2 && ms == [ms[0], ms[1]] && ms[0].key != ms[1].key && |b| == 80 && ms[0].value == Some(b) &&
      ms[1].value == Some(sha(b)) && L.Doable(s.objects, s.roots, ms[0]) && L.Doable(s.objects, s.roots, ms[1])
  {
    hide WorldKey, BaseKey, RevisionKey, ViewName, Flat, Le;
    KeysFit(w);
    KeysFit(name);
    KeysApart(name, w);
    KeysApart(w, name);
    var b := Descriptor(sha, s, w, plan);
    assert SnapshotBatch(sha, s, w, name, plan) ==
      [Mutation(RevisionKey(name), Some(b), None), Mutation(BaseKey(w), Some(sha(b)), None)];
  }

  /** A snapshot happens exactly when both names are legal, the World is there and the revision
      is not. A World that is still flat must also have its tree planned, within the limits of
      a batch. */
  lemma SnapshotHappens(sha: Bytes -> Hash, p: Priority, payloads: set<Bytes>, y: System, w: Bytes, name: Bytes,
                        plan: T.Plan)
    requires Inv(sha, p, payloads, y) && TellsApart(sha, payloads)
    requires Descriptor(sha, y.state, w, plan) in payloads && sha(Descriptor(sha, y.state, w, plan)) in payloads
    ensures Enabled(sha, p, y.state, Snapshot(w, name, plan)) <==>
      ViewName(name) && ViewName(w) && w in y.want && name !in y.kept && y.state.sequence < U64 - 1 &&
      (Flat(y.state, w) ==>
        PlanFor(p, y.state, w, map[], plan) && Accepted(sha, y.state, SnapshotBatch(sha, y.state, w, name, plan)))
  {
    hide Inv, TellsApart, ViewName, WorldKey, BaseKey, RevisionKey, RevisionWell, RevisionMeans, BaseWell, G.Well,
         Flat, PlanFor, SnapshotBatch, Descriptor, L.Acceptable, ParentId;
    WorldNamed(sha, p, payloads, y, w);
    BaseNamed(sha, p, payloads, y, w);
    RevisionNamed(sha, p, payloads, y, name);
    InvStore(sha, p, payloads, y);
    if !Flat(y.state, w) && ViewName(w) && ViewName(name) {
      SnapshotDoable(sha, y.state, w, name, plan);
      var ms := SnapshotBatch(sha, y.state, w, name, plan);
      TwoAccepted(sha, payloads, y.state, ms[0], ms[1]);
    }
  }

  /** An update happens exactly when the World is there, its change of the tree can be planned
      and the batch is within the limits. */
  lemma UpdateHappens(sha: Bytes -> Hash, p: Priority, payloads: set<Bytes>, y: System, w: Bytes, changes: Edits,
                      plan: T.Plan)
    requires Inv(sha, p, payloads, y)
    ensures Enabled(sha, p, y.state, Update(w, changes, plan)) <==>
      ViewName(w) && w in y.want && changes != map[] &&
      (Inner(changes) != map[] ==> PlanFor(p, y.state, w, DeltaOf(sha, Inner(changes)), plan)) &&
      Accepted(sha, y.state, UpdateBatch(sha, y.state, w, changes, plan))
  {
    hide Inv, ViewName, WorldKey, PlanFor, UpdateBatch, Accepted, Flat, Inner, DeltaOf;
    WorldNamed(sha, p, payloads, y, w);
  }

  /** The main World is initialized exactly when it is not there yet, with a root and legal
      keys, within the limits of a batch. */
  lemma InitializeHappens(sha: Bytes -> Hash, p: Priority, payloads: set<Bytes>, y: System, values: Contents)
    requires Inv(sha, p, payloads, y)
    ensures Enabled(sha, p, y.state, Initialize(values)) <==>
      KeysOk(values) && MAIN !in y.want && Accepted(sha, y.state, List(map k | k in values :: Some(values[k])))
  {
    hide Inv, WorldKey, Accepted, List, StartsWith, T.ValidKey;
    WorldNamed(sha, p, payloads, y, MAIN);
    RootPrefix();
    if MAIN !in y.want { NothingMain(sha, p, payloads, y); }
  }

  lemma NothingMain(sha: Bytes -> Hash, p: Priority, payloads: set<Bytes>, y: System)
    requires Inv(sha, p, payloads, y) && MAIN !in y.want
    ensures WorldKey(MAIN) !in y.state.roots && forall k :: k in y.state.roots ==> !StartsWith(k, PREFIX)
  {
    hide L.StateOk, Drawn, WorldsMean, RevisionsMean, BasesMean, StartsWith, WorldKey;
    KeyNames(MAIN);
    forall k | k in y.state.roots ensures KeyOk(y, k, y.state.roots[k]) { }
  }

  // ---- A plan exists ----

  lemma {:induction false} Listing(s: set<Id>) returns (ids: seq<Id>)
    ensures NoRepeats(ids) && Elements(ids) == s
    decreases |s|
  {
    if s == {} { return []; }
    var x :| x in s;
    ids := Listing(s - {x});
    assert Elements(ids + [x]) == Elements(ids) + {x};
    ids := ids + [x];
  }

  /** Where legal changes keep the root and the treap of the new map is no deeper than lookups
      allow, the tree editor has something to publish. */
  lemma PlanExists(sha: Bytes -> Hash, p: Priority, payloads: set<Bytes>, y: System, w: Bytes, delta: Changes,
                   before: Id, t: Id)
    returns (plan: T.Plan)
    requires Inv(sha, p, payloads, y) && w in y.want && Opened(y.state, w, before)
    requires T.Acceptable(AllChanges(y.state, w, delta)) && Ordered(p, t) && T.Height(t) <= T.MAX_DEPTH
    requires Map(t) == ApplyChanges(Map(before), AllChanges(y.state, w, delta)) && ROOT in Map(t)
    ensures PlanFor(p, y.state, w, delta, plan) && plan.root == t
  {
    hide Inv, T.Acceptable, Ordered, T.Height, Map, ApplyChanges, AllChanges, T.Present, Opened, NoRepeats, Elements;
    var nodes := Listing(Nodes(t));
    plan := T.Plan(t, nodes);
    PresentNodes({}, t);
    assert Nodes(t) + {} == Nodes(t);
    T.PresentGrows(Nodes(t), Nodes(before) + Elements(nodes), t);
  }

  // ---- What an update writes beside the tree ----

  lemma OuterListed(sha: Bytes -> Hash, s: L.State, w: Bytes, changes: Edits, plan: T.Plan, k: Bytes)
    requires k in changes && StartsWith(k, ORPHANS)
    ensures Mutation(k, changes[k], None) in UpdateBatch(sha, s, w, changes, plan)
  {
    hide NewObjects, StartsWith;
    assert Mutation(k, changes[k], None) in List(Outer(changes));
  }

  lemma MarkerListed(sha: Bytes -> Hash, s: L.State, w: Bytes, changes: Edits, plan: T.Plan, k: Bytes)
    requires k in changes && !StartsWith(k, ORPHANS) && StartsWith(k, ALLOCATED) && changes[k].Some?
    ensures Mutation(Marker(k), Some([]), None) in UpdateBatch(sha, s, w, changes, plan)
  {
    hide StartsWith, NewObjects, Marker, Inner, List;
    var inner := Inner(changes);
    InnerHas(changes, k);
    MarkerIn(sha, s, inner, plan, k);
    ListHas(NewObjects(sha, s.roots, inner, plan.objects), Marker(k));
  }

  lemma InnerHas(changes: Edits, k: Bytes)
    requires k in changes && !StartsWith(k, ORPHANS)
    ensures k in Inner(changes) && Inner(changes)[k] == changes[k]
  {
    hide StartsWith;
  }

  lemma ListHas(edits: Edits, k: Bytes)
    requires k in edits
    ensures Mutation(k, edits[k], None) in List(edits)
  {
  }

  lemma MarkerIn(sha: Bytes -> Hash, s: L.State, inner: Edits, plan: T.Plan, k: Bytes)
    requires k in inner && inner[k].Some? && StartsWith(k, ALLOCATED)
    ensures var edits := NewObjects(sha, s.roots, inner, plan.objects);
      Marker(k) in edits && edits[Marker(k)] == Some([])
  {
    hide StartsWith, Unregistered, Marker, PayloadsIn, NodePayloads;
    assert Marker(k) in MarkerKeys(inner);
    NotRegistered(sha, s.roots, PayloadsIn(inner) + NodePayloads(sha, plan.objects), k);
  }

  lemma NotRegistered(sha: Bytes -> Hash, roots: Refs, some: set<Bytes>, k: Bytes)
    requires StartsWith(k, ALLOCATED)
    ensures Marker(k) !in Unregistered(sha, roots, some)
  {
    hide StartsWith, Hex;
    assert StartsWith(Marker(k), MARKERS) by { MarkerStarts(k); }
    OneKind(Marker(k));
    forall v ensures RegistryKey(sha(v)) != Marker(k) { KeyNames(sha(v)); }
  }

  lemma MarkerStarts(k: Bytes)
    requires StartsWith(k, ALLOCATED)
    ensures StartsWith(Marker(k), MARKERS)
  {
  }

  /** Every edit of an open but unlinked file lands in the same commit, and every new inode
      identity is marked as used for good. */
  lemma UpdateLands(sha: Bytes -> Hash, p: Priority, payloads: set<Bytes>, y: System, w: Bytes, changes: Edits,
                    plan: T.Plan, k: Bytes)
    requires Ready(sha, p, payloads, y, Update(w, changes, plan)) && k in changes
    ensures var s' := After(sha, p, y, Update(w, changes, plan)).state;
      (StartsWith(k, ORPHANS) ==>
        match changes[k]
        case None => k !in s'.roots
        case Some(v) => k in s'.roots && s'.roots[k] in s'.objects && s'.objects[s'.roots[k]] == v) &&
      (!StartsWith(k, ORPHANS) && StartsWith(k, ALLOCATED) && changes[k].Some? ==> Marker(k) in s'.roots)
  {
    hide *;
    var e := Update(w, changes, plan);
    ReadyEffect(sha, p, payloads, y, e);
    UpdateShape(sha, p, payloads, y, e);
    var ms, s' := BatchOf(sha, y.state, e), After(sha, p, y, e).state;
    if StartsWith(k, ORPHANS) {
      OuterListed(sha, y.state, w, changes, plan, k);
      if changes[k].Some? {
        PutLands(sha, y.state, ms, s', k, changes[k].value);
        StoredIs(sha, s'.objects, changes[k].value);
      } else {
        DropLands(sha, y.state, ms, s', k);
      }
    } else if StartsWith(k, ALLOCATED) && changes[k].Some? {
      MarkerListed(sha, y.state, w, changes, plan, k);
      PutLands(sha, y.state, ms, s', Marker(k), []);
    }
  }

  lemma StoredIs(sha: Bytes -> Hash, objects: L.Objects, v: Bytes)
    requires Stored(sha, objects, v)
    ensures sha(v) in objects && objects[sha(v)] == v
  {
  }

  lemma DropLands(sha: Bytes -> Hash, s: L.State, ms: seq<Mutation>, s': L.State, k: Bytes)
    requires Effect(sha, s, ms, s') && Mutation(k, None, None) in ms
    ensures k !in s'.roots
  {
    hide Extends, Rest, Stored;
    assert Lands(sha, s', Mutation(k, None, None));
  }
}
