/** The root-fact cache between concurrent readers and a committing writer
    (daemon/level_store.cpp, read, transact and collect). */
module RootCache {
  import opened Bytes
  import opened JournalCodec

  /** A cached answer: the reference, or a known absence. */
  type Fact = Option<Hash>

  const MAX_FACTS: nat := 4096
  const MAX_CACHED_KEY: nat := 1026

  function FactOf(roots: Refs, key: Bytes): Fact {
    if key in roots then Some(roots[key]) else None
  }

  /** A reader: it has loaded an epoch and missed; then it has the database's answer. */
  datatype Reader = Missed(key: Bytes, epoch: nat) | Answered(key: Bytes, epoch: nat, fact: Fact)

  /** The database, the published sequence, whether a commit is between its write and the
      bump, the cache with its epoch, and the readers in flight. `before` is the roots
      the current sequence was published with. */
  datatype System = System(roots: Refs, sequence: nat, writing: bool, before: Refs,
                           cache: map<Bytes, Fact>, cacheEpoch: Option<nat>, readers: map<nat, Reader>)

  datatype Event =
    | Load(reader: nat, key: Bytes)
    | Get(reader: nat)
    | Install(reader: nat)
    | WriteBatch(next: Refs)
    | Bump

  /** What a lookup returns at its first step, if it hits. */
  function Hit(y: System, key: Bytes): Option<Fact> {
    if y.cacheEpoch == Some(y.sequence) && key in y.cache then Some(y.cache[key]) else None
  }

  function Step(y: System, e: Event): System {
    match e
    case Load(r, key) =>
      var y' := if y.cacheEpoch == Some(y.sequence) then y else y.(cache := map[], cacheEpoch := Some(y.sequence));
      if key in y'.cache then y'.(readers := y'.readers - {r})
      else y'.(readers := y'.readers[r := Missed(key, y.sequence)])
    case Get(r) =>
      if r in y.readers && y.readers[r].Missed? then
        y.(readers := y.readers[r := Answered(y.readers[r].key, y.readers[r].epoch, FactOf(y.roots, y.readers[r].key))])
      else y
    case Install(r) =>
      if r !in y.readers || !y.readers[r].Answered? then y
      else
        var g := y.readers[r];
        var y' := y.(readers := y.readers - {r});
        if |g.key| <= MAX_CACHED_KEY && y.sequence == g.epoch && y.cacheEpoch == Some(g.epoch)
        then y'.(cache := (if |y.cache| >= MAX_FACTS then map[] else y.cache)[g.key := g.fact]) else y'
    case WriteBatch(next) => if y.writing then y else y.(roots := next, writing := true)
    case Bump => if y.writing then y.(sequence := y.sequence + 1, writing := false, before := y.roots) else y
  }

  /** True of the published roots, or of the batch being committed on top of them. */
  ghost predicate Current(y: System, key: Bytes, fact: Fact) {
    fact == FactOf(y.before, key) || fact == FactOf(y.roots, key)
  }

  ghost predicate CacheOk(y: System) {
    (y.cacheEpoch.Some? ==> y.cacheEpoch.value <= y.sequence) &&
    (y.cacheEpoch == Some(y.sequence) ==> forall k :: k in y.cache ==> Current(y, k, y.cache[k])) &&
    |y.cache| <= MAX_FACTS
  }

  ghost predicate ReaderOk(y: System, r: Reader) {
    r.epoch <= y.sequence && (r.Answered? && r.epoch == y.sequence ==> Current(y, r.key, r.fact))
  }

  ghost predicate ReadersOk(y: System) {
    forall r :: r in y.readers ==> ReaderOk(y, y.readers[r])
  }

  ghost predicate Inv(y: System) {
    (!y.writing ==> y.before == y.roots) && CacheOk(y) && ReadersOk(y)
  }

  /** A commit's write leaves what was current current; only then does the epoch move on. */
  lemma WriteKeeps(y: System, next: Refs)
    requires Inv(y)
    ensures Inv(Step(y, WriteBatch(next)))
  {
    hide FactOf;
    var y' := Step(y, WriteBatch(next));
    forall r | r in y'.readers ensures ReaderOk(y', y'.readers[r]) { assert ReaderOk(y, y.readers[r]); }
  }

  lemma BumpKeeps(y: System)
    requires Inv(y)
    ensures Inv(Step(y, Bump))
  {
    hide FactOf;
    var y' := Step(y, Bump);
    forall r | r in y'.readers ensures ReaderOk(y', y'.readers[r]) { assert ReaderOk(y, y.readers[r]); }
  }

  lemma LoadKeeps(y: System, r: nat, key: Bytes)
    requires Inv(y)
    ensures Inv(Step(y, Load(r, key)))
  {
    hide FactOf;
    var y' := Step(y, Load(r, key));
    forall i | i in y'.readers ensures ReaderOk(y', y'.readers[i]) { if i != r { assert ReaderOk(y, y.readers[i]); } }
  }

  lemma GetKeeps(y: System, r: nat)
    requires Inv(y)
    ensures Inv(Step(y, Get(r)))
  {
    hide FactOf;
    var y' := Step(y, Get(r));
    forall i | i in y'.readers ensures ReaderOk(y', y'.readers[i]) { assert ReaderOk(y, y.readers[i]); }
  }

  lemma CacheFilled(y: System, key: Bytes, fact: Fact)
    requires CacheOk(y) && Current(y, key, fact)
    ensures CacheOk(y.(cache := (if |y.cache| >= MAX_FACTS then map[] else y.cache)[key := fact]))
  {
    hide FactOf;
    var base := if |y.cache| >= MAX_FACTS then map[] else y.cache;
    assert base[key := fact].Keys == base.Keys + {key};
  }

  lemma ReaderGone(y: System, r: nat)
    requires Inv(y)
    ensures Inv(y.(readers := y.readers - {r}))
  {
    hide FactOf;
    forall i | i in y.readers - {r} ensures ReaderOk(y.(readers := y.readers - {r}), y.readers[i]) {
      assert ReaderOk(y, y.readers[i]);
    }
  }

  lemma InstallKeeps(y: System, r: nat)
    requires Inv(y)
    ensures Inv(Step(y, Install(r)))
  {
    hide CacheOk, FactOf;
    if r in y.readers && y.readers[r].Answered? {
      var g, y' := y.readers[r], y.(readers := y.readers - {r});
      assert ReaderOk(y, g);
      ReaderGone(y, r);
      if g.epoch == y.sequence {
        CacheFilled(y', g.key, g.fact);
        assert ReadersOk(y'.(cache := (if |y.cache| >= MAX_FACTS then map[] else y.cache)[g.key := g.fact]));
      }
    }
  }

  lemma StepKeeps(y: System, e: Event)
    requires Inv(y)
    ensures Inv(Step(y, e))
  {
    hide Inv, Step;
    match e
    case Load(r, key) => LoadKeeps(y, r, key);
    case Get(r) => GetKeeps(y, r);
    case Install(r) => InstallKeeps(y, r);
    case WriteBatch(next) => WriteKeeps(y, next);
    case Bump => BumpKeeps(y);
  }

  function Run(y: System, events: seq<Event>): System
    decreases |events|
  {
    if events == [] then y else Run(Step(y, events[0]), events[1..])
  }

  function Start(roots: Refs): System {
    System(roots, 0, false, roots, map[], None, map[])
  }

  lemma {:induction false} RunKeeps(y: System, events: seq<Event>)
    requires Inv(y)
    ensures Inv(Run(y, events))
    decreases |events|
  {
    hide Inv, Step;
    if events != [] { StepKeeps(y, events[0]); RunKeeps(Step(y, events[0]), events[1..]); }
  }

  /** In every interleaving, a hit outside an in-flight commit is the database's answer,
      absences included; during one it is the answer before or after it. */
  lemma HitsAreTrue(roots: Refs, events: seq<Event>, key: Bytes)
    ensures var y := Run(Start(roots), events);
      Hit(y, key).Some? ==>
        Current(y, key, Hit(y, key).value) && (!y.writing ==> Hit(y, key).value == FactOf(y.roots, key))
  {
    hide Run, Step;
    assert Inv(Start(roots));
    RunKeeps(Start(roots), events);
  }

  /** What a lookup does when no commit comes between its steps. */
  function Looked(y: System, r: nat, key: Bytes): System {
    Step(Step(Step(y, Load(r, key)), Get(r)), Install(r))
  }

  /** A lookup that no commit crosses leaves its answer cached, and the cache then gives the
      database's own answer, if the key is short enough to be cached; the readers in flight
      are the others, and the database is untouched. */
  lemma LookupCaches(y: System, r: nat, key: Bytes)
    requires Inv(y) && !y.writing
    ensures var y' := Looked(y, r, key);
      (|key| <= MAX_CACHED_KEY ==> Hit(y', key) == Some(FactOf(y.roots, key))) &&
      y'.roots == y.roots && y'.sequence == y.sequence && y'.readers == y.readers - {r}
  {
    hide Step, FactOf;
    var a := Step(y, Load(r, key));
    LoadAnswers(y, r, key);
    if r in a.readers {
      GetAnswers(a, r);
      var b := Step(a, Get(r));
      assert b.readers[r] == Answered(key, y.sequence, FactOf(y.roots, key));
      InstallAnswers(b, r);
      Gone(y.readers, r, a.readers[r], b.readers[r]);
    } else {
      NobodyThere(a, r);
      NobodyThere(Step(a, Get(r)), r);
    }
  }

  lemma Gone(readers: map<nat, Reader>, r: nat, a: Reader, b: Reader)
    ensures readers[r := a][r := b] - {r} == readers - {r}
  {
  }

  /** A lookup hits, with the database's own answer, or waits for it. */
  lemma LoadAnswers(y: System, r: nat, key: Bytes)
    requires Inv(y) && !y.writing
    ensures var a := Step(y, Load(r, key));
      a.roots == y.roots && a.sequence == y.sequence && a.cacheEpoch == Some(y.sequence) && |a.cache| <= MAX_FACTS &&
      if r in a.readers then a.readers == y.readers[r := Missed(key, y.sequence)]
      else a.readers == y.readers - {r} && Hit(a, key) == Some(FactOf(y.roots, key))
  {
    hide FactOf, ReadersOk, CacheOk, Current;
    var c := if y.cacheEpoch == Some(y.sequence) then y else y.(cache := map[], cacheEpoch := Some(y.sequence));
    Cleared(y, c, key);
    if key in c.cache {
      assert Step(y, Load(r, key)) == c.(readers := c.readers - {r});
      assert r !in c.readers - {r};
    } else {
      assert Step(y, Load(r, key)) == c.(readers := c.readers[r := Missed(key, y.sequence)]);
      assert r in c.readers[r := Missed(key, y.sequence)];
    }
  }

  lemma Cleared(y: System, c: System, key: Bytes)
    requires CacheOk(y) && !y.writing && y.before == y.roots
    requires c == if y.cacheEpoch == Some(y.sequence) then y else y.(cache := map[], cacheEpoch := Some(y.sequence))
    ensures |c.cache| <= MAX_FACTS && (key in c.cache ==> c.cache[key] == FactOf(y.roots, key))
  {
    hide FactOf;
  }

  lemma GetAnswers(a: System, r: nat)
    requires r in a.readers && a.readers[r].Missed?
    ensures var g := a.readers[r];
      Step(a, Get(r)) == a.(readers := a.readers[r := Answered(g.key, g.epoch, FactOf(a.roots, g.key))])
  {
    hide FactOf;
  }

  lemma InstallAnswers(b: System, r: nat)
    requires r in b.readers && b.readers[r].Answered?
    requires b.readers[r].epoch == b.sequence && b.cacheEpoch == Some(b.sequence)
    ensures var g, c := b.readers[r], Step(b, Install(r));
      (|g.key| <= MAX_CACHED_KEY ==> Hit(c, g.key) == Some(g.fact)) && c.readers == b.readers - {r} &&
      c.roots == b.roots && c.sequence == b.sequence
  {
  }

  lemma NobodyThere(y: System, r: nat)
    requires r !in y.readers
    ensures Step(y, Get(r)) == y && Step(y, Install(r)) == y
  {
  }

  /** The epoch test at installation is what forbids it: here a reader crosses a commit,
      and the fact it holds is no longer true. */
  lemma CrossingReader(key: Bytes, a: Hash, b: Hash)
    requires a != b && |key| <= MAX_CACHED_KEY
    ensures
      var read := Step(Step(Start(map[key := a]), Load(0, key)), Get(0));
      var y := Step(Step(read, WriteBatch(map[key := b])), Bump);
      y.readers == map[0 := Answered(key, 0, Some(a))] && !y.writing && FactOf(y.roots, key) == Some(b) &&
      Hit(Step(y, Install(0)), key).None?
  {
    var y := Step(Step(Start(map[key := a]), Load(0, key)), Get(0));
    assert y.readers == map[0 := Answered(key, 0, Some(a))];
  }
}
