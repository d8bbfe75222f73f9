/** Every interleaving of commits, snapshots, forks and compaction steps leaves each World
    and each revision meaning what its own history says
    (daemon/compaction.cpp, daemon/namespace.cpp). */
module CompactionRuns {
  import opened Bytes
  import opened JournalCodec
  import opened RunCodec
  import opened Runs
  import opened Compaction

  /** The journal: main's flat roots until its first head, the heads, the revisions, the
      stored runs and the commit sequence. */
  datatype Store = Store(flat: Refs, heads: map<Bytes, seq<Changes>>, revisions: map<Bytes, seq<Changes>>,
                         objects: set<Changes>, sequence: nat)

  /** A compaction: what it froze, then what it built and how far it staged it. */
  datatype Task =
    | Prepared(world: Bytes, head: Option<seq<Changes>>, sequence: nat, input: Refs)
    | Built(world: Bytes, head: Option<seq<Changes>>, sequence: nat, input: Refs,
            output: seq<Changes>, staged: nat, staging: bool)

  predicate Exists(s: Store, w: Bytes) {
    w in s.heads || w == MAIN
  }

  function MapOf(s: Store, w: Bytes): Refs {
    if w in s.heads then References(s.heads[w]) else s.flat
  }

  function HeadOf(s: Store, w: Bytes): Option<seq<Changes>> {
    if w in s.heads then Some(s.heads[w]) else None
  }

  /** Whether a compaction's input is still current: the same head, or, for a flat World, no
      other commit at all since. */
  predicate Matches(s: Store, t: Task) {
    HeadOf(s, t.world) == t.head && (t.head.Some? || s.sequence == t.sequence)
  }

  datatype Event =
    | Commit(world: Bytes, delta: Changes, image: seq<Changes>)
    | Snapshot(world: Bytes, name: Bytes, image: seq<Changes>)
    | Fork(name: Bytes, world: Bytes)
    | Unrelated
    | Prepare(task: nat, world: Bytes)
    | Build(task: nat, output: seq<Changes>)
    | Stage(task: nat, count: nat)
    | Install(task: nat)
    | Drop(task: nat)

  /** The journal with its compactions, and what each World and revision should mean. */
  datatype System = System(store: Store, tasks: map<nat, Task>, want: map<Bytes, Refs>, kept: map<Bytes, Refs>)

  // ---- Steps ----

  /** A foreground commit of a delta the run encoder accepts. A flat World that has its
      root moves to runs by it; one that has none only takes namespace keys. */
  ghost function Committed(s: Store, w: Bytes, delta: Changes, image: seq<Changes>): Option<Store> {
    var next := s.(sequence := s.sequence + 1);
    if w in s.heads then
      (var runs := Planned(s.heads[w], delta);
       if Writable(delta) && |runs| <= MAX_RUNS
       then Some(next.(heads := s.heads[w := runs], objects := s.objects + {delta}))
       else None)
    else if w != MAIN then None
    else if ROOT !in s.flat then (if RunEntries(delta) then Some(next.(flat := ApplyChanges(s.flat, delta))) else None)
    else if ROOT in ApplyChanges(s.flat, delta) && Image(image, ApplyChanges(s.flat, delta)) then
      Some(next.(heads := s.heads[w := image], objects := s.objects + Elements(image)))
    else None
  }

  ghost function Captured(s: Store, w: Bytes, name: Bytes, image: seq<Changes>): Option<Store> {
    var next := s.(sequence := s.sequence + 1);
    if name in s.revisions || !Exists(s, w) || ROOT !in MapOf(s, w) then None
    else if w in s.heads then Some(next.(revisions := s.revisions[name := s.heads[w]]))
    else if Image(image, s.flat) then
      Some(next.(revisions := s.revisions[name := image], objects := s.objects + Elements(image)))
    else None
  }

  ghost function Forked(s: Store, name: Bytes, w: Bytes): Option<Store> {
    if name !in s.revisions || Exists(s, w) then None
    else Some(s.(heads := s.heads[w := s.revisions[name]], sequence := s.sequence + 1))
  }

  /** One staging batch: more of the output becomes durable; no head changes. Runs already
      stored need no commit. */
  ghost function Staged(s: Store, t: Task, count: nat): (Store, Task)
    requires t.Built?
  {
    var started := t.(staging := true);
    if !Matches(s, t) || t.staged + count > |t.output| || count == 0 then (s, started)
    else
      var batch := Elements(t.output[t.staged..t.staged + count]);
      var s' := if batch <= s.objects then s else s.(objects := s.objects + batch, sequence := s.sequence + 1);
      (s', started.(staged := t.staged + count, sequence := if t.head.None? then s'.sequence else t.sequence))
  }

  /** The one visible step: the head moves to the output if the input is still current.
      Unstaged output is written with it; staged output must be there. */
  ghost function Installed(s: Store, t: Task): Store
    requires t.Built?
  {
    if !Matches(s, t) || t.head == Some(t.output) || (t.staging && !(Elements(t.output) <= s.objects)) then s
    else s.(heads := s.heads[t.world := t.output], objects := s.objects + Elements(t.output),
            sequence := s.sequence + 1)
  }

  /** What history says of a name. */
  function Recorded(history: map<Bytes, Refs>, name: Bytes): Refs {
    if name in history then history[name] else map[]
  }

  ghost function Step(y: System, e: Event): System {
    var s := y.store;
    match e
    case Commit(w, delta, image) =>
      var next := Committed(s, w, delta, image);
      if next.None? then y else y.(store := next.value, want := y.want[w := ApplyChanges(Recorded(y.want, w), delta)])
    case Snapshot(w, name, image) =>
      var next := Captured(s, w, name, image);
      if next.None? then y else y.(store := next.value, kept := y.kept[name := Recorded(y.want, w)])
    case Fork(name, w) =>
      var next := Forked(s, name, w);
      if next.None? then y else y.(store := next.value, want := y.want[w := Recorded(y.kept, name)])
    case Unrelated => y.(store := s.(sequence := s.sequence + 1))
    case Prepare(i, w) =>
      if Exists(s, w) then y.(tasks := y.tasks[i := Prepared(w, HeadOf(s, w), s.sequence, MapOf(s, w))]) else y
    case Build(i, output) =>
      if i in y.tasks && y.tasks[i].Prepared? && Image(output, y.tasks[i].input) then
        var t := y.tasks[i];
        y.(tasks := y.tasks[i := Built(t.world, t.head, t.sequence, t.input, output, 0, false)])
      else y
    case Stage(i, count) =>
      if i in y.tasks && y.tasks[i].Built? then
        var r := Staged(s, y.tasks[i], count);
        y.(store := r.0, tasks := y.tasks[i := r.1])
      else y
    case Install(i) => if i in y.tasks && y.tasks[i].Built? then y.(store := Installed(s, y.tasks[i])) else y
    case Drop(i) => y.(tasks := y.tasks - {i})
  }

  // ---- The invariant ----

  /** A compaction that still matches froze exactly the World's current map; what it froze
      can be packed. */
  ghost predicate TaskOk(s: Store, t: Task) {
    (t.head.Some? ==> t.input == References(t.head.value)) &&
    (t.head.None? ==> t.world == MAIN && t.sequence <= s.sequence &&
                      (t.world !in s.heads && t.sequence == s.sequence ==> t.input == s.flat)) &&
    Storable(t.input) && (t.Built? ==> Image(t.output, t.input))
  }

  ghost predicate TasksOk(y: System) {
    forall i :: i in y.tasks ==> TaskOk(y.store, y.tasks[i])
  }

  /** Every head and revision lists encodable runs that are all stored, and the flat roots
      can be packed. */
  ghost predicate Whole(s: Store) {
    (forall w :: w in s.heads ==> Elements(s.heads[w]) <= s.objects && Listable(s.heads[w])) &&
    (forall r :: r in s.revisions ==> Elements(s.revisions[r]) <= s.objects && Listable(s.revisions[r])) &&
    Storable(s.flat)
  }

  ghost predicate Meant(y: System) {
    y.want.Keys == y.store.heads.Keys + {MAIN} && (forall w :: w in y.want ==> MapOf(y.store, w) == y.want[w]) &&
    y.kept.Keys == y.store.revisions.Keys && forall r :: r in y.kept ==> References(y.store.revisions[r]) == y.kept[r]
  }

  ghost predicate Inv(y: System) {
    Meant(y) && Whole(y.store) && TasksOk(y)
  }

  // ---- Preservation ----

  /** A new sequence number retires every flat compaction; heads never go away. */
  ghost predicate Advances(s: Store, s': Store) {
    s'.sequence > s.sequence && s.heads.Keys <= s'.heads.Keys
  }

  lemma TasksAdvance(y: System, s': Store)
    requires TasksOk(y) && Advances(y.store, s')
    ensures TasksOk(y.(store := s'))
  {
    hide References, Image, Storable;
  }

  /** One head moved to stored runs, and nothing else but the sequence and the objects. */
  ghost predicate OneHead(s: Store, s': Store, w: Bytes) {
    w in s'.heads && s'.heads == s.heads[w := s'.heads[w]] && s'.flat == s.flat && s'.revisions == s.revisions &&
    s.objects <= s'.objects && Elements(s'.heads[w]) <= s'.objects && s'.sequence > s.sequence
  }

  /** Moving one head to stored runs gives its World their meaning and no other a new one. */
  lemma HeadMoved(y: System, s': Store, w: Bytes, refs: Refs)
    requires Inv(y) && OneHead(y.store, s', w) && Image(s'.heads[w], refs)
    ensures Inv(y.(store := s', want := y.want[w := refs]))
  {
    hide References, TaskOk, Listable, Elements, Storable;
    TasksAdvance(y, s');
  }

  ghost predicate OneRevision(s: Store, s': Store, r: Bytes) {
    r in s'.revisions && r !in s.revisions && s'.revisions == s.revisions[r := s'.revisions[r]] &&
    s'.flat == s.flat && s'.heads == s.heads &&
    s.objects <= s'.objects && Elements(s'.revisions[r]) <= s'.objects && s'.sequence > s.sequence
  }

  lemma RevisionAdded(y: System, s': Store, r: Bytes, refs: Refs)
    requires Inv(y) && OneRevision(y.store, s', r) && Image(s'.revisions[r], refs)
    ensures Inv(y.(store := s', kept := y.kept[r := refs]))
  {
    hide References, TaskOk, Listable, Elements, Storable;
    TasksAdvance(y, s');
  }

  lemma FlatChanged(y: System, s': Store, refs: Refs)
    requires Inv(y) && MAIN !in y.store.heads && s' == y.store.(flat := refs, sequence := y.store.sequence + 1)
    requires Storable(refs)
    ensures Inv(y.(store := s', want := y.want[MAIN := refs]))
  {
    hide References, TaskOk, Listable, Elements, Storable;
    TasksAdvance(y, s');
  }

  lemma PlannedElements(runs: seq<Changes>, delta: Changes, objects: set<Changes>)
    requires NoRepeats(runs) && Elements(runs) <= objects
    ensures Elements(Planned(runs, delta)) <= objects + {delta}
  {
    hide Planned, NoRepeats;
    PlannedDistinct(runs, delta);
  }

  lemma WorldKnown(y: System, w: Bytes)
    requires Inv(y) && Exists(y.store, w)
    ensures w in y.want && MapOf(y.store, w) == Recorded(y.want, w)
  {
    hide References, TasksOk, Whole;
  }

  lemma CommitKeeps(y: System, e: Event)
    requires Inv(y) && e.Commit?
    ensures Inv(Step(y, e))
  {
    hide References, Planned, TaskOk, ApplyChanges, Elements, NoRepeats, Meant, TasksOk, Storable, Writable, RunEntries;
    var s := y.store;
    var next := Committed(s, e.world, e.delta, e.image);
    if next.Some? {
      WorldKnown(y, e.world);
      var want := ApplyChanges(MapOf(s, e.world), e.delta);
      if e.world in s.heads {
        PlannedImage(s.heads[e.world], MapOf(s, e.world), e.delta);
        PlannedElements(s.heads[e.world], e.delta, s.objects);
        HeadMoved(y, next.value, e.world, want);
      } else if ROOT in s.flat {
        HeadMoved(y, next.value, e.world, want);
      } else {
        AppliedStorable(s.flat, e.delta);
        FlatChanged(y, next.value, want);
      }
    }
  }

  lemma SnapshotKeeps(y: System, e: Event)
    requires Inv(y) && e.Snapshot?
    ensures Inv(Step(y, e))
  {
    hide References, TaskOk, Elements, Listable, Meant, TasksOk, Storable;
    var s := y.store;
    var next := Captured(s, e.world, e.name, e.image);
    if next.Some? {
      WorldKnown(y, e.world);
      RevisionAdded(y, next.value, e.name, MapOf(s, e.world));
    }
  }

  lemma ForkKeeps(y: System, e: Event)
    requires Inv(y) && e.Fork?
    ensures Inv(Step(y, e))
  {
    hide References, TaskOk, Elements, Listable, TasksOk, Storable;
    var next := Forked(y.store, e.name, e.world);
    if next.Some? { HeadMoved(y, next.value, e.world, y.kept[e.name]); }
  }

  /** Two systems that differ only in stored runs, the sequence and one compaction. */
  ghost predicate OnlyStages(y: System, y': System, i: nat) {
    y'.store == y.store.(objects := y'.store.objects, sequence := y'.store.sequence) &&
    y.store.objects <= y'.store.objects &&
    y.store.sequence <= y'.store.sequence && y'.want == y.want && y'.kept == y.kept && y'.tasks.Keys == y.tasks.Keys &&
    forall j :: j in y.tasks && j != i ==> y'.tasks[j] == y.tasks[j]
  }

  /** Staging stores runs of the output. It changes no head, no revision and no flat root,
      and no other compaction; for a flat World it moves its own fence along. */
  lemma StageKeeps(y: System, e: Event)
    requires Inv(y) && e.Stage?
    ensures Inv(Step(y, e)) && OnlyStages(y, Step(y, e), e.task)
  {
    hide References, Image, Storable, Listable, Elements;
    if e.task in y.tasks && y.tasks[e.task].Built? {
      var t, s := y.tasks[e.task], y.store;
      var r := Staged(s, t, e.count);
      assert TaskOk(s, t);
      if r.0 != s { TasksAdvance(y, r.0); }
      assert TaskOk(r.0, r.1);
    }
  }

  lemma InstallKeeps(y: System, e: Event)
    requires Inv(y) && e.Install?
    ensures Inv(Step(y, e))
  {
    hide References, TasksOk, Elements, Listable, Whole, Storable;
    if e.task in y.tasks && y.tasks[e.task].Built? {
      var t, s := y.tasks[e.task], y.store;
      TaskAt(y, e.task);
      var s' := Installed(s, t);
      if s' != s {
        HeadMoved(y, s', t.world, t.input);
        assert y.want[t.world := t.input] == y.want;
      }
    }
  }

  lemma TaskAt(y: System, i: nat)
    requires TasksOk(y) && i in y.tasks
    ensures TaskOk(y.store, y.tasks[i])
  {
  }

  lemma MapStorable(s: Store, w: Bytes)
    requires Whole(s)
    ensures Storable(MapOf(s, w))
  {
    hide References, Storable, Writable, Elements;
    if w in s.heads { ListedStorable(s.heads[w]); }
  }

  lemma PrepareKeeps(y: System, e: Event)
    requires Inv(y) && e.Prepare?
    ensures Inv(Step(y, e))
  {
    hide References, Image, Storable, Whole;
    MapStorable(y.store, e.world);
  }

  /** Every step keeps every World's and every revision's meaning. */
  lemma StepKeeps(y: System, e: Event)
    requires Inv(y)
    ensures Inv(Step(y, e))
  {
    hide References, Image, Storable, Listable;
    match e
    case Commit(_, _, _) => CommitKeeps(y, e);
    case Snapshot(_, _, _) => SnapshotKeeps(y, e);
    case Fork(_, _) => ForkKeeps(y, e);
    case Unrelated => TasksAdvance(y, Step(y, e).store);
    case Prepare(_, _) => PrepareKeeps(y, e);
    case Build(_, _) =>
    case Stage(_, _) => StageKeeps(y, e);
    case Install(_) => InstallKeeps(y, e);
    case Drop(_) =>
  }

  ghost function Run(y: System, events: seq<Event>): System
    decreases |events|
  {
    if events == [] then y else Run(Step(y, events[0]), events[1..])
  }

  ghost function Start(): System {
    System(Store(map[], map[], map[], {}, 0), map[], map[MAIN := map[]], map[])
  }

  lemma {:induction false} RunKeeps(y: System, events: seq<Event>)
    requires Inv(y)
    ensures Inv(Run(y, events))
    decreases |events|
  {
    hide Inv, Step;
    if events != [] { StepKeeps(y, events[0]); RunKeeps(Step(y, events[0]), events[1..]); }
  }

  lemma StartOk()
    ensures Inv(Start())
  {
  }

  /** Over every run: a World is exactly the fold of its own commits, a revision what it
      captured, both are whole in the store, and every compaction's input can be packed. */
  lemma EveryRun(events: seq<Event>)
    ensures Meant(Run(Start(), events)) && Whole(Run(Start(), events).store)
    ensures forall i :: i in Run(Start(), events).tasks ==> Storable(Run(Start(), events).tasks[i].input)
  {
    hide Run, Start, Storable;
    StartOk();
    RunKeeps(Start(), events);
  }

  /** The manifest of a run list is accepted as that list, and its root is found exactly
      when the map it should mean has one. */
  ghost predicate Loads(d: Digest, runs: seq<Changes>, refs: Refs) {
    DecodeManifest(ManifestBytes(Ids(d, runs))) == Some(Ids(d, runs)) && (Lookup(runs, ROOT).Some? <==> ROOT in refs)
  }

  lemma ListedLoads(d: Digest, runs: seq<Changes>, refs: Refs)
    requires Listable(runs) && References(runs) == refs && Tells(d, runs)
    ensures Loads(d, runs, refs)
  {
    hide Listable, Tells, References, Lookup, DecodeManifest, ManifestBytes, Ids;
    ManifestAccepted(d, runs, refs);
  }

  /** Over every run, every head and every revision is a manifest the loader accepts, under
      any hash that tells the listed runs apart. */
  lemma EveryManifestLoads(d: Digest, events: seq<Event>)
    ensures var y := Run(Start(), events);
      (forall w :: w in y.store.heads && Tells(d, y.store.heads[w]) ==>
        w in y.want && Loads(d, y.store.heads[w], y.want[w])) &&
      (forall r :: r in y.store.revisions && Tells(d, y.store.revisions[r]) ==>
        r in y.kept && Loads(d, y.store.revisions[r], y.kept[r]))
  {
    hide Run, Start, Storable, References, Listable, Tells, Loads;
    EveryRun(events);
    var y := Run(Start(), events);
    forall w | w in y.store.heads && Tells(d, y.store.heads[w])
      ensures w in y.want && Loads(d, y.store.heads[w], y.want[w])
    {
      assert w in y.want;
      ListedLoads(d, y.store.heads[w], y.want[w]);
    }
    forall r | r in y.store.revisions && Tells(d, y.store.revisions[r])
      ensures r in y.kept && Loads(d, y.store.revisions[r], y.kept[r])
    {
      assert r in y.kept;
      ListedLoads(d, y.store.revisions[r], y.kept[r]);
    }
  }

  // ---- Who may change a meaning ----

  /** No step but a World's own commit changes its map; none changes a revision's. */
  lemma OnlyOwnCommits(y: System, e: Event, w: Bytes)
    requires Inv(y) && Exists(y.store, w) && !(e.Commit? && e.world == w)
    ensures Exists(Step(y, e).store, w) && MapOf(Step(y, e).store, w) == MapOf(y.store, w)
  {
    hide References, Image, Planned, ApplyChanges, TasksOk, Elements, Listable, Storable, Writable, RunEntries;
    StepKeeps(y, e);
    assert w in y.want && w in Step(y, e).want;
  }

  lemma RevisionsStay(y: System, e: Event, r: Bytes)
    requires Inv(y) && r in y.store.revisions
    ensures r in Step(y, e).store.revisions
    ensures References(Step(y, e).store.revisions[r]) == References(y.store.revisions[r])
  {
    hide References, Image, Planned, ApplyChanges, TasksOk, Elements, Listable, MapOf, Storable, Writable, RunEntries;
    StepKeeps(y, e);
    assert r in y.kept && r in Step(y, e).kept;
  }

  // ---- The fence of a flat compaction ----

  /** The event neither starts this compaction over nor drops it. */
  predicate Spares(e: Event, i: nat) {
    !(e.Prepare? && e.task == i) && !(e.Drop? && e.task == i)
  }

  /** The compaction is one of a flat World. */
  predicate FlatTask(y: System, i: nat) {
    i in y.tasks && y.tasks[i].head.None?
  }

  predicate Current(y: System, i: nat)
    requires i in y.tasks
  {
    Matches(y.store, y.tasks[i])
  }

  /** A flat compaction that is current after a step was current before it, and the
      sequence moved only if the step was its own staging. */
  lemma FenceStep(y: System, e: Event, i: nat)
    requires TasksOk(y) && FlatTask(y, i) && Spares(e, i)
    ensures FlatTask(Step(y, e), i)
    ensures Current(Step(y, e), i) ==>
      Current(y, i) && Step(y, e).store.flat == y.store.flat &&
      (Step(y, e).store.sequence != y.store.sequence ==> e.Stage? && e.task == i)
  {
    hide References, Image, Planned, ApplyChanges, Elements, Storable, Writable, RunEntries, TasksOk;
    TaskAt(y, i);
  }

  /** Over every run: while a flat compaction stays current it was current at every step,
      the flat roots never changed, and every commit was one of its own staging batches. */
  lemma {:induction false} FenceRun(y: System, events: seq<Event>, i: nat)
    requires Inv(y) && FlatTask(y, i) && forall e :: e in events ==> Spares(e, i)
    ensures FlatTask(Run(y, events), i)
    ensures Current(Run(y, events), i) ==> Run(y, events).store.flat == y.store.flat && FencedBy(y, events, i)
    decreases |events|
  {
    hide Inv, Step, Matches;
    if events != [] {
      var y' := Step(y, events[0]);
      assert events[0] in events && forall e :: e in events[1..] ==> e in events;
      assert TasksOk(y) by { InvTasks(y); }
      FenceStep(y, events[0], i);
      StepKeeps(y, events[0]);
      FenceRun(y', events[1..], i);
    }
  }

  lemma InvTasks(y: System)
    requires Inv(y)
    ensures TasksOk(y)
  {
  }

  /** At every step of the run the compaction was current, and only its own staging moved
      the sequence. */
  ghost predicate FencedBy(y: System, events: seq<Event>, i: nat)
    decreases |events|
  {
    FlatTask(y, i) && Current(y, i) &&
    (events != [] ==>
      (Step(y, events[0]).store.sequence != y.store.sequence ==> events[0].Stage? && events[0].task == i) &&
      FencedBy(Step(y, events[0]), events[1..], i))
  }

  /** Once a flat compaction is stale it stays stale, and installs and stages nothing ever. */
  lemma StaleForever(y: System, events: seq<Event>, i: nat, count: nat)
    requires Inv(y) && FlatTask(y, i) && !Current(y, i) && forall e :: e in events ==> Spares(e, i)
    ensures FlatTask(Run(y, events), i) && !Current(Run(y, events), i)
    ensures Step(Run(y, events), Install(i)).store == Run(y, events).store
    ensures Step(Run(y, events), Stage(i, count)).store == Run(y, events).store
  {
    hide Inv, Run, References, Image;
    FenceRun(y, events, i);
  }

  /** Any compaction that lost the race, flat or not, leaves the journal alone. */
  lemma StaleChangesNothing(y: System, i: nat, count: nat)
    requires i in y.tasks && y.tasks[i].Built? && !Current(y, i)
    ensures Step(y, Install(i)).store == y.store && Step(y, Stage(i, count)).store == y.store
  {
    hide References, Image;
  }
  // ---- When a step takes effect ----

  /** The World is as the compaction froze it: the same head, or flat at the same sequence. */
  predicate Unmoved(s: Store, t: Task) {
    if t.head.Some? then t.world in s.heads && s.heads[t.world] == t.head.value
    else t.world !in s.heads && s.sequence == t.sequence
  }

  /** A finished compaction has something to publish, and what it staged is all there. */
  ghost predicate Publishable(s: Store, t: Task) {
    t.Built? && Unmoved(s, t) && !(t.world in s.heads && s.heads[t.world] == t.output) &&
    (t.staging ==> forall run :: run in t.output ==> run in s.objects)
  }

  /** An install publishes the output exactly when it can, and otherwise changes nothing. */
  lemma InstallPublishes(y: System, i: nat)
    ensures var s, s' := y.store, Step(y, Install(i)).store;
      if i in y.tasks && Publishable(s, y.tasks[i]) then
        var t := y.tasks[i];
        s'.heads == s.heads[t.world := t.output] && s'.sequence == s.sequence + 1 &&
        s'.flat == s.flat && s'.revisions == s.revisions && (forall run :: run in t.output ==> run in s'.objects)
      else s' == s
  {
    hide References, Image;
    if i in y.tasks && y.tasks[i].Built? {
      var t := y.tasks[i];
      assert forall run :: run in t.output <==> run in Elements(t.output);
    }
  }

  /** A staging batch of a current compaction stores exactly the next runs of its output, with
      a commit only if one of them is new; any other stores nothing. */
  lemma StageStores(y: System, i: nat, count: nat)
    ensures var s, y' := y.store, Step(y, Stage(i, count));
      var s' := y'.store;
      s'.heads == s.heads && s'.flat == s.flat && s'.revisions == s.revisions &&
      if i in y.tasks && y.tasks[i].Built? && Unmoved(s, y.tasks[i]) && 0 < count &&
         y.tasks[i].staged + count <= |y.tasks[i].output|
      then
        var t := y.tasks[i];
        i in y'.tasks && y'.tasks[i].Built? && y'.tasks[i].staged == t.staged + count && y'.tasks[i].staging &&
        (forall run :: run in s'.objects <==> run in s.objects || run in t.output[t.staged..t.staged + count]) &&
        s'.sequence == s.sequence + (if s'.objects == s.objects then 0 else 1) && Unmoved(s', y'.tasks[i])
      else s' == s
  {
    hide References, Image;
    if i in y.tasks && y.tasks[i].Built? && y.tasks[i].staged + count <= |y.tasks[i].output| {
      var t := y.tasks[i];
      var part := t.output[t.staged..t.staged + count];
      assert forall run :: run in part <==> run in Elements(part);
    }
  }

  /** A commit of a delta the encoder accepts, within the limit on runs. */
  ghost predicate Accepts(s: Store, w: Bytes, delta: Changes, image: seq<Changes>) {
    if w in s.heads then Writable(delta) && |Planned(s.heads[w], delta)| <= MAX_RUNS
    else
      w == MAIN &&
      if ROOT in s.flat then ROOT in ApplyChanges(s.flat, delta) && Image(image, ApplyChanges(s.flat, delta))
      else RunEntries(delta)
  }

  /** An accepted commit changes the World's map by its delta; a refused one changes nothing. */
  lemma CommitHappens(y: System, w: Bytes, delta: Changes, image: seq<Changes>)
    requires Inv(y)
    ensures var y' := Step(y, Commit(w, delta, image));
      if Accepts(y.store, w, delta, image) then
        Exists(y'.store, w) && MapOf(y'.store, w) == ApplyChanges(MapOf(y.store, w), delta) &&
        y'.store.sequence == y.store.sequence + 1 && (ROOT in MapOf(y.store, w) ==> w in y'.store.heads)
      else y' == y
  {
    hide References, Image, Planned, ApplyChanges, TasksOk, Elements, Listable, Storable, Writable, RunEntries;
    StepKeeps(y, Commit(w, delta, image));
    if Accepts(y.store, w, delta, image) {
      WorldKnown(y, w);
      assert w in Step(y, Commit(w, delta, image)).want;
    }
  }

  /** A snapshot of a World with a root under a new name captures its map. */
  lemma SnapshotHappens(y: System, w: Bytes, name: Bytes, image: seq<Changes>)
    requires Inv(y)
    ensures var s, y' := y.store, Step(y, Snapshot(w, name, image));
      if name !in s.revisions && Exists(s, w) && ROOT in MapOf(s, w) && (w in s.heads || Image(image, s.flat)) then
        name in y'.store.revisions && References(y'.store.revisions[name]) == MapOf(s, w) &&
        y'.store.sequence == s.sequence + 1 && y'.store.heads == s.heads && y'.store.flat == s.flat
      else y' == y
  {
    hide References, TasksOk, Elements, Storable, Writable, Listable;
  }

  /** A fork of a revision to a new World gives it the revision's map. */
  lemma ForkHappens(y: System, name: Bytes, w: Bytes)
    ensures var s, y' := y.store, Step(y, Fork(name, w));
      if name in s.revisions && !Exists(s, w) then
        w in y'.store.heads && MapOf(y'.store, w) == References(s.revisions[name]) &&
        y'.store.sequence == s.sequence + 1 && y'.store.revisions == s.revisions && y'.store.flat == s.flat
      else y' == y
  {
    hide References;
  }

  // ---- A compaction left alone publishes ----

  /** The event leaves the compaction and its World alone. For a World with a head that is
      anything but its commits and installs; for a flat one, anything but a commit not its own. */
  predicate Quiet(e: Event, i: nat, w: Bytes, flat: bool) {
    Spares(e, i) && !e.Install? &&
    if flat then !e.Commit? && !e.Snapshot? && !e.Fork? && !e.Unrelated? && (e.Stage? ==> e.task == i)
    else !(e.Commit? && e.world == w)
  }

  /** How many runs of the output an event asks to stage. */
  function Asks(e: Event, i: nat): nat {
    if e.Stage? && e.task == i then e.count else 0
  }

  function Total(events: seq<Event>, i: nat): nat {
    if events == [] then 0 else Asks(events[0], i) + Total(events[1..], i)
  }

  /** A compaction under way: its World unmoved, and the first runs of its output stored. */
  ghost predicate Going(y: System, i: nat, w: Bytes, head: Option<seq<Changes>>, output: seq<Changes>, n: nat) {
    i in y.tasks && y.tasks[i].Built? && Exists(y.store, w) &&
    var t := y.tasks[i];
    t.world == w && t.head == head && t.output == output && t.staged == n <= |output| && (t.staging ==> n > 0) &&
    Unmoved(y.store, t) && forall k :: 0 <= k < n ==> output[k] in y.store.objects
  }

  lemma GoingStep(y: System, e: Event, i: nat, w: Bytes, head: Option<seq<Changes>>, output: seq<Changes>, n: nat)
    requires Going(y, i, w, head, output, n) && Quiet(e, i, w, head.None?)
    requires (e.Stage? && e.task == i ==> e.count > 0) && n + Asks(e, i) <= |output|
    ensures Going(Step(y, e), i, w, head, output, n + Asks(e, i))
  {
    hide References, Image, Planned, ApplyChanges, Storable, Writable, RunEntries;
    if e.Stage? && e.task == i {
      var part := output[n..n + e.count];
      forall k | n <= k < n + e.count ensures output[k] in Elements(part) { assert part[k - n] == output[k]; }
    }
  }

  lemma {:induction false} GoingRun(y: System, events: seq<Event>, i: nat, w: Bytes, head: Option<seq<Changes>>,
                                    output: seq<Changes>, n: nat)
    requires Going(y, i, w, head, output, n) && n + Total(events, i) <= |output|
    requires forall e :: e in events ==> Quiet(e, i, w, head.None?) && (e.Stage? && e.task == i ==> e.count > 0)
    ensures Going(Run(y, events), i, w, head, output, n + Total(events, i))
    decreases |events|
  {
    hide Going, Step, Quiet;
    if events != [] {
      var e := events[0];
      assert e in events && forall x :: x in events[1..] ==> x in events;
      GoingStep(y, e, i, w, head, output, n);
      GoingRun(Step(y, e), events[1..], i, w, head, output, n + Asks(e, i));
    }
  }

  /** A compaction that is prepared and built, staged in whole or not at all, and left alone
      meanwhile ends with its output as the World's head. */
  lemma LeftAlonePublishes(y: System, i: nat, w: Bytes, output: seq<Changes>, events: seq<Event>)
    requires Exists(y.store, w) && Image(output, MapOf(y.store, w)) && HeadOf(y.store, w) != Some(output)
    requires forall e :: e in events ==>
      Quiet(e, i, w, HeadOf(y.store, w).None?) && (e.Stage? && e.task == i ==> e.count > 0)
    requires Total(events, i) == |output| || Total(events, i) == 0
    ensures var y' := Run(Step(Step(y, Prepare(i, w)), Build(i, output)), events);
      var s, s' := y'.store, Step(y', Install(i)).store;
      w in s'.heads && s'.heads[w] == output && s'.sequence == s.sequence + 1
  {
    hide Run, Quiet, Image, Total;
    var z := Step(Step(y, Prepare(i, w)), Build(i, output));
    assert Going(z, i, w, HeadOf(y.store, w), output, 0);
    GoingRun(z, events, i, w, HeadOf(y.store, w), output, 0);
    var y' := Run(z, events);
    AllStored(y', i, w, HeadOf(y.store, w), output, Total(events, i));
    InstallPublishes(y', i);
  }

  lemma AllStored(y: System, i: nat, w: Bytes, head: Option<seq<Changes>>, output: seq<Changes>, n: nat)
    requires Going(y, i, w, head, output, n) && (n == |output| || n == 0) && head != Some(output)
    ensures Publishable(y.store, y.tasks[i]) && y.tasks[i].world == w && y.tasks[i].output == output
  {
  }
}
