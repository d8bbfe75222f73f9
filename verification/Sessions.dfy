/** Leased RPC sessions: handle ownership and exclusive World mounts (daemon/rpc.cpp).
    Dispatch is serial; the clock is a parameter. */
module Sessions {
  import opened Bytes

  const MAX_SESSIONS: nat := 128
  const MAX_SESSION_HANDLES: nat := 256

  /** What a handle or mount is on: a World, or a read-only revision. */
  datatype Owned = Owned(view: Bytes, revision: bool)

  datatype Session = Session(lease: nat, deadline: nat, closing: bool, handles: map<Token, Owned>, mount: Option<Owned>)

  type Table = map<Token, Session>

  // ---- The invariants ----

  predicate Mounts(mount: Option<Owned>, view: Bytes) {
    mount == Some(Owned(view, false))
  }

  predicate Holds(handles: map<Token, Owned>, view: Bytes) {
    exists h :: h in handles && handles[h] == Owned(view, false)
  }

  /** What the first session mounts mutably, the second neither mounts mutably nor holds. */
  ghost predicate Excludes(a: Session, b: Session) {
    forall view :: Mounts(a.mount, view) ==> !Mounts(b.mount, view) && !Holds(b.handles, view)
  }

  /** A mutable mount of a World shuts every other session out of it. */
  ghost predicate Exclusive(values: Table) {
    forall a, b :: a in values && b in values && a != b ==> Excludes(values[a], values[b])
  }

  /** Every live handle belongs to exactly one session, on the view it was opened on. */
  ghost predicate Partition(values: Table, live: map<Token, Owned>) {
    Listed(values, live) && OneOwner(values) && Owners(values, live)
  }

  ghost predicate Listed(values: Table, live: map<Token, Owned>) {
    forall t, h :: t in values && h in values[t].handles ==> h in live && live[h] == values[t].handles[h]
  }

  ghost predicate OneOwner(values: Table) {
    forall t, u, h :: t in values && u in values && h in values[t].handles && h in values[u].handles ==> t == u
  }

  ghost predicate Owners(values: Table, live: map<Token, Owned>) {
    forall h :: h in live ==> OwnedBySome(values, h)
  }

  ghost predicate OwnedBySome(values: Table, h: Token) {
    exists t :: t in values && h in values[t].handles
  }

  ghost predicate Ok(values: Table, live: map<Token, Owned>) {
    Exclusive(values) && Partition(values, live) && |values| <= MAX_SESSIONS
  }

  // ---- Changing one session ----

  /** A session that loses handles, or changes only its clock, breaks nothing. */
  lemma ExclusiveShrinks(values: Table, t: Token, s: Session)
    requires Exclusive(values) && t in values && s.mount == values[t].mount
    requires forall h :: h in s.handles ==> h in values[t].handles && s.handles[h] == values[t].handles[h]
    ensures Exclusive(values[t := s])
  {
    var values' := values[t := s];
    forall a, b | a in values' && b in values' && a != b ensures Excludes(values'[a], values'[b]) {
      assert Excludes(values[a], values[b]);
    }
  }

  lemma ExclusiveRemoved(values: Table, t: Token)
    requires Exclusive(values)
    ensures Exclusive(values - {t})
  {
    hide Excludes;
  }

  lemma ExclusiveAdded(values: Table, t: Token, s: Session)
    requires Exclusive(values) && t !in values && s.handles == map[] && s.mount.None?
    ensures Exclusive(values[t := s])
  {
    var values' := values[t := s];
    forall a, b | a in values' && b in values' && a != b ensures Excludes(values'[a], values'[b]) {
      if a != t && b != t { assert Excludes(values[a], values[b]); }
    }
  }

  /** What mount_acquire checks of every other session. */
  predicate Free(values: Table, t: Token, view: Bytes) {
    forall u :: u in values && u != t ==> !Mounts(values[u].mount, view) && !Holds(values[u].handles, view)
  }

  lemma ExclusiveMounted(values: Table, t: Token, s: Session, o: Owned)
    requires Exclusive(values) && t in values && s.handles == values[t].handles && s.mount == Some(o)
    requires !o.revision ==> Free(values, t, o.view)
    ensures Exclusive(values[t := s])
  {
    hide Holds;
    var values' := values[t := s];
    forall a, b | a in values' && b in values' && a != b ensures Excludes(values'[a], values'[b]) {
      assert Excludes(values[a], values[b]);
    }
  }

  /** What authorize checks before a World is written or opened. */
  predicate Allowed(values: Table, t: Token, o: Owned) {
    o.revision || forall u :: u in values && u != t ==> !Mounts(values[u].mount, o.view)
  }

  /** A session's own renewal does not change what it may mount or open. */
  lemma FreeSame(values: Table, t: Token, s: Session, o: Owned)
    ensures Free(values[t := s], t, o.view) <==> Free(values, t, o.view)
    ensures Allowed(values[t := s], t, o) <==> Allowed(values, t, o)
  {
    hide Mounts, Holds;
    var values' := values[t := s];
    forall u | u in values && u != t ensures u in values' && values'[u] == values[u] { }
    forall u | u in values' && u != t ensures u in values && values'[u] == values[u] { }
  }

  lemma ExclusiveOpened(values: Table, t: Token, s: Session, h: Token, o: Owned)
    requires Exclusive(values) && t in values && s.mount == values[t].mount && s.handles == values[t].handles[h := o]
    requires Allowed(values, t, o)
    ensures Exclusive(values[t := s])
  {
    var values' := values[t := s];
    forall a, b | a in values' && b in values' && a != b ensures Excludes(values'[a], values'[b]) {
      assert Excludes(values[a], values[b]);
      if b == t { OneMoreHandle(values[a], values[t], s, h, o); }
    }
  }

  lemma OneMoreHandle(a: Session, b: Session, b': Session, h: Token, o: Owned)
    requires Excludes(a, b) && b'.mount == b.mount && b'.handles == b.handles[h := o]
    requires (o.revision || !Mounts(a.mount, o.view))
    ensures Excludes(a, b')
  {
    forall view | Mounts(a.mount, view) ensures !Mounts(b'.mount, view) && !Holds(b'.handles, view) {
      HoldsMore(b.handles, h, o, view);
    }
  }

  lemma HoldsMore(handles: map<Token, Owned>, h: Token, o: Owned, view: Bytes)
    requires o != Owned(view, false) && !Holds(handles, view)
    ensures !Holds(handles[h := o], view)
  {
  }

  /** A duplicate is on a World its session already holds, so no other mount is in the way. */
  lemma HeldIsAllowed(values: Table, t: Token, h: Token)
    requires Exclusive(values) && t in values && h in values[t].handles
    ensures Allowed(values, t, values[t].handles[h])
  {
    var o := values[t].handles[h];
    if !o.revision {
      forall u | u in values && u != t ensures !Mounts(values[u].mount, o.view) {
        assert Excludes(values[u], values[t]);
        assert Holds(values[t].handles, o.view);
      }
    }
  }

  // ---- Ownership ----

  lemma StillOwned(values: Table, values': Table, h: Token)
    requires OwnedBySome(values, h)
    requires forall t :: t in values && h in values[t].handles ==> t in values' && h in values'[t].handles
    ensures OwnedBySome(values', h)
  {
  }

  lemma PartitionOpened(values: Table, live: map<Token, Owned>, t: Token, s: Session, h: Token, o: Owned)
    requires Partition(values, live) && t in values && h !in live && s.handles == values[t].handles[h := o]
    ensures Partition(values[t := s], live[h := o])
  {
    hide OwnedBySome;
    var values' := values[t := s];
    assert forall u :: u in values ==> h !in values[u].handles;
    forall x | x in live ensures OwnedBySome(values', x) { StillOwned(values, values', x); }
    assert OwnedBySome(values', h) by { Owner(values', t, h); }
    OneOwnerOpened(values, t, s, h, o);
  }

  lemma OneOwnerOpened(values: Table, t: Token, s: Session, h: Token, o: Owned)
    requires OneOwner(values) && t in values && (forall u :: u in values ==> h !in values[u].handles)
    requires s.handles == values[t].handles[h := o]
    ensures OneOwner(values[t := s])
  {
  }

  lemma Owner(values: Table, t: Token, h: Token)
    requires t in values && h in values[t].handles
    ensures OwnedBySome(values, h)
  {
  }

  lemma PartitionClosed(values: Table, live: map<Token, Owned>, t: Token, s: Session, h: Token)
    requires Partition(values, live) && t in values && h in values[t].handles && s.handles == values[t].handles - {h}
    ensures Partition(values[t := s], live - {h})
  {
    hide OwnedBySome;
    var values' := values[t := s];
    forall x | x in live - {h} ensures OwnedBySome(values', x) { StillOwned(values, values', x); }
    forall u, x | u in values' && x in values'[u].handles ensures x in live - {h} && live[x] == values'[u].handles[x] {
      assert x in values[u].handles;
    }
    OneOwnerShrinks(values, t, s);
  }

  lemma OneOwnerShrinks(values: Table, t: Token, s: Session)
    requires OneOwner(values) && t in values && forall h :: h in s.handles ==> h in values[t].handles
    ensures OneOwner(values[t := s])
  {
  }

  lemma PartitionSame(values: Table, live: map<Token, Owned>, t: Token, s: Session)
    requires Partition(values, live) && (if t in values then s.handles == values[t].handles else s.handles == map[])
    ensures Partition(values[t := s], live)
  {
    hide OwnedBySome;
    var values' := values[t := s];
    forall x | x in live ensures OwnedBySome(values', x) { StillOwned(values, values', x); }
  }

  lemma PartitionRemoved(values: Table, live: map<Token, Owned>, t: Token)
    requires Partition(values, live) && t in values && values[t].handles == map[]
    ensures Partition(values - {t}, live)
  {
    hide OwnedBySome;
    var values' := values - {t};
    forall x | x in live ensures OwnedBySome(values', x) { StillOwned(values, values', x); }
  }

  /** Closes handles one by one; stops early if the container fails. */
  method Drain(values: Table, live: map<Token, Owned>, t: Token, working: nat)
    returns (done: bool, s: Session, live': map<Token, Owned>)
    requires Ok(values, live) && t in values
    ensures done <==> |values[t].handles| <= working
    ensures s == values[t].(closing := true, handles := s.handles) && s.handles.Keys <= values[t].handles.Keys
    ensures (done ==> s.handles == map[])
    ensures Ok(values[t := s], live') && live' == live - (values[t].handles.Keys - s.handles.Keys)
  {
    hide Ok, Drained;
    s, live' := values[t].(closing := true), live;
    DrainStart(values, live, t);
    var left: nat := working;
    while s.handles != map[]
      invariant s == values[t].(closing := true, handles := s.handles) && Ok(values[t := s], live')
      invariant Drained(values[t].handles, s.handles, live, live')
      invariant left + |values[t].handles| == working + |s.handles|
      decreases |s.handles|
    {
      hide *;
      NotEmpty(s.handles);
      if left == 0 { DrainedParts(values[t].handles, s.handles, live, live'); return false, s, live'; }
      var h :| h in s.handles;
      var next := s.(handles := s.handles - {h});
      DrainStep(values, live', t, s, next, h);
      DrainedStep(values[t].handles, s.handles, live, live', h);
      OneLess(s.handles, h);
      s, live', left := next, live' - {h}, left - 1;
    }
    assert |s.handles| == 0;
    DrainedParts(values[t].handles, s.handles, live, live');
    return true, s, live';
  }

  /** The handles gone from a session are the ones gone from the container. */
  ghost predicate Drained(all: map<Token, Owned>, handles: map<Token, Owned>, live: map<Token, Owned>,
                          live': map<Token, Owned>) {
    handles.Keys <= all.Keys && live' == live - (all.Keys - handles.Keys)
  }

  lemma DrainedParts(all: map<Token, Owned>, handles: map<Token, Owned>, live: map<Token, Owned>,
                     live': map<Token, Owned>)
    requires Drained(all, handles, live, live')
    ensures handles.Keys <= all.Keys && live' == live - (all.Keys - handles.Keys)
  {
  }

  lemma DrainedStep(all: map<Token, Owned>, handles: map<Token, Owned>, live: map<Token, Owned>,
                    live': map<Token, Owned>, h: Token)
    requires Drained(all, handles, live, live') && h in handles
    ensures Drained(all, handles - {h}, live, live' - {h})
  {
    assert all.Keys - (handles - {h}).Keys == (all.Keys - handles.Keys) + {h};
  }

  lemma DrainStart(values: Table, live: map<Token, Owned>, t: Token)
    requires Ok(values, live) && t in values
    ensures Ok(values[t := values[t].(closing := true)], live)
    ensures Drained(values[t].handles, values[t].handles, live, live)
  {
    hide Exclusive, Partition;
    var s := values[t].(closing := true);
    ExclusiveShrinks(values, t, s);
    PartitionSame(values, live, t, s);
    OneMore(values, t, s);
    assert live - {} == live;
  }

  lemma DrainStep(values: Table, live: map<Token, Owned>, t: Token, s: Session, next: Session, h: Token)
    requires Ok(values[t := s], live) && h in s.handles && next == s.(handles := s.handles - {h}) && t in values
    ensures Ok(values[t := next], live - {h})
  {
    hide Exclusive, Partition;
    var now := values[t := s];
    ExclusiveShrinks(now, t, next);
    PartitionClosed(now, live, t, next, h);
    OneMore(now, t, next);
    assert now[t := next] == values[t := next];
  }

  // ---- The service ----

  /** A session with its lease renewed. */
  function Renewed(s: Session, now: nat): Session {
    s.(deadline := now + s.lease)
  }

  /** The table after a request for a live session: changed if it went through, renewed anyway. */
  function Answered(values: Table, t: Token, now: nat, ok: bool, changed: Session): Table
    requires t in values
  {
    values[t := if ok then changed else Renewed(values[t], now)]
  }

  class Service {
    var values: Table
    /** The container's open handles. */
    var live: map<Token, Owned>

    ghost predicate Valid()
      reads this
    {
      Ok(values, live)
    }

    constructor ()
      ensures Valid() && values == map[] && live == map[]
    {
      values, live := map[], map[];
    }

    predicate Usable(t: Token, now: nat)
      reads this
    {
      t in values && !values[t].closing && now < values[t].deadline
    }

    method Create(t: Token, lease: nat, now: nat) returns (ok: bool)
      requires Valid() && t !in values
      modifies this`values
      ensures Valid() && (ok <==> 100 <= lease <= 300000 && |old(values)| < MAX_SESSIONS)
      ensures values == if ok then old(values)[t := Session(lease, now + lease, false, map[], None)] else old(values)
    {
      hide Exclusive, Partition;
      if lease < 100 || lease > 300000 || |values| >= MAX_SESSIONS { return false; }
      var s := Session(lease, now + lease, false, map[], None);
      ExclusiveAdded(values, t, s);
      PartitionSame(values, live, t, s);
      OneMore(values, t, s);
      values := values[t := s];
      return true;
    }

    /** Finds a live session and renews its lease. */
    method Acquire(t: Token, now: nat) returns (ok: bool)
      requires Valid()
      modifies this`values
      ensures Valid() && (ok <==> old(Usable(t, now)))
      ensures ok <==> t in old(values) && !old(values)[t].closing && now < old(values)[t].deadline
      ensures ok ==>
        t in values && values[t] == old(values)[t].(deadline := now + old(values)[t].lease) &&
        forall u :: u != t ==> (u in values <==> u in old(values)) && (u in values ==> values[u] == old(values)[u])
      ensures values == if ok then old(values)[t := Renewed(old(values)[t], now)] else old(values)
    {
      hide Exclusive, Partition;
      if !Usable(t, now) { return false; }
      var s := values[t].(deadline := now + values[t].lease);
      ExclusiveShrinks(values, t, s);
      PartitionSame(values, live, t, s);
      OneMore(values, t, s);
      values := values[t := s];
      return true;
    }

    /** Mounts a view. A World is mounted only if no other session mounts or holds it. */
    method MountAcquire(t: Token, o: Owned, now: nat) returns (ok: bool)
      requires Valid()
      modifies this`values
      ensures Valid()
      ensures ok <==>
        old(Usable(t, now)) && (old(values)[t].mount.Some? ==> old(values)[t].mount == Some(o)) &&
        (!o.revision ==> Free(old(values), t, o.view))
      ensures old(Usable(t, now)) ==>
        values == Answered(old(values), t, now, ok, Renewed(old(values)[t], now).(mount := Some(o)))
      ensures !old(Usable(t, now)) ==> values == old(values)
    {
      hide Exclusive, Partition, Mounts, Holds;
      var acquired := Acquire(t, now);
      if !acquired { return false; }
      FreeSame(old(values), t, values[t], o);
      if values[t].mount.Some? && values[t].mount != Some(o) { return false; }
      if !o.revision && !Free(values, t, o.view) { return false; }
      var s := values[t].(mount := Some(o));
      ExclusiveMounted(values, t, s, o);
      PartitionSame(values, live, t, s);
      OneMore(values, t, s);
      values := values[t := s];
      return true;
    }

    /** Opens a handle for a session; `succeeds` is whether the file system could. */
    method Open(t: Token, o: Owned, h: Token, succeeds: bool, now: nat) returns (ok: bool)
      requires Valid() && h !in live
      modifies this
      ensures Valid()
      ensures ok <==>
        old(Usable(t, now)) && Allowed(old(values), t, o) && |old(values)[t].handles| < MAX_SESSION_HANDLES && succeeds
      ensures live == if ok then old(live)[h := o] else old(live)
      ensures old(Usable(t, now)) ==>
        var s := old(values)[t];
        values == Answered(old(values), t, now, ok, Renewed(s, now).(handles := s.handles[h := o]))
      ensures !old(Usable(t, now)) ==> values == old(values)
    {
      hide Exclusive, Partition, Mounts;
      var acquired := Acquire(t, now);
      if !acquired { return false; }
      FreeSame(old(values), t, values[t], o);
      if !Allowed(values, t, o) || |values[t].handles| >= MAX_SESSION_HANDLES || !succeeds { return false; }
      var s := values[t].(handles := values[t].handles[h := o]);
      ExclusiveOpened(values, t, s, h, o);
      PartitionOpened(values, live, t, s, h, o);
      OneMore(values, t, s);
      values, live := values[t := s], live[h := o];
      return true;
    }

    /** Duplicates a session's own handle, without asking about mounts again. */
    method Dup(t: Token, h: Token, copy: Token, succeeds: bool, now: nat) returns (ok: bool)
      requires Valid() && copy !in live
      modifies this
      ensures Valid()
      ensures ok <==>
        old(Usable(t, now)) && h in old(values)[t].handles && |old(values)[t].handles| < MAX_SESSION_HANDLES && succeeds
      ensures live == if ok then old(live)[copy := old(values)[t].handles[h]] else old(live)
      ensures old(Usable(t, now)) && h in old(values)[t].handles ==>
        var s := old(values)[t];
        values == Answered(old(values), t, now, ok, Renewed(s, now).(handles := s.handles[copy := s.handles[h]]))
      ensures old(Usable(t, now)) && !ok ==> values == old(values)[t := Renewed(old(values)[t], now)]
      ensures !old(Usable(t, now)) ==> values == old(values)
    {
      hide Exclusive, Partition, Mounts;
      var acquired := Acquire(t, now);
      if !acquired { return false; }
      if h !in values[t].handles || |values[t].handles| >= MAX_SESSION_HANDLES || !succeeds { return false; }
      var o := values[t].handles[h];
      HeldIsAllowed(values, t, h);
      var s := values[t].(handles := values[t].handles[copy := o]);
      ExclusiveOpened(values, t, s, copy, o);
      PartitionOpened(values, live, t, s, copy, o);
      OneMore(values, t, s);
      values, live := values[t := s], live[copy := o];
      return true;
    }

    /** Closes a session's handles one by one and forgets it. If the container fails after
        `working` of them, the session stays, closing, with the rest. */
    method Close(t: Token, working: nat) returns (ok: bool)
      requires Valid()
      modifies this
      ensures Valid()
      ensures ok <==> t in old(values) && |old(values)[t].handles| <= working
      ensures ok ==> values == old(values) - {t} && live == old(live) - old(values)[t].handles.Keys
      ensures !ok && t in old(values) ==> t in values && values[t].closing && values == old(values)[t := values[t]]
      ensures t !in old(values) ==> values == old(values) && live == old(live)
    {
      hide Exclusive, Partition;
      if t !in values { return false; }
      var done, s, left := Drain(values, live, t, working);
      if !done {
        values, live := values[t := s], left;
        return false;
      }
      Forgotten(values, left, t, s);
      values, live := values - {t}, left;
      return true;
    }

    /** Closes one of a session's handles. */
    method CloseHandle(t: Token, h: Token, now: nat) returns (ok: bool)
      requires Valid()
      modifies this
      ensures Valid()
      ensures ok <==> old(Usable(t, now)) && h in old(values)[t].handles
      ensures live == if ok then old(live) - {h} else old(live)
      ensures old(Usable(t, now)) ==>
        var s := old(values)[t];
        values == Answered(old(values), t, now, ok, Renewed(s, now).(handles := s.handles - {h}))
      ensures !old(Usable(t, now)) ==> values == old(values)
    {
      hide Exclusive, Partition;
      var acquired := Acquire(t, now);
      if !acquired || h !in values[t].handles { return false; }
      var s := values[t].(handles := values[t].handles - {h});
      ExclusiveShrinks(values, t, s);
      PartitionClosed(values, live, t, s, h);
      OneMore(values, t, s);
      values, live := values[t := s], live - {h};
      return true;
    }

    /** Closes every session that is closing or past its deadline, and only those. */
    method Expire(now: nat, working: nat) returns (ok: bool)
      requires Valid()
      modifies this
      ensures Valid()
      ensures ok <==> forall t :: t in Dead(old(values), now) ==> |old(values)[t].handles| <= working
      ensures ok ==>
        values == Alive(old(values), now) && live == old(live) - HandlesOf(old(values), Dead(old(values), now))
      ensures forall t :: t in Alive(old(values), now) ==> t in values && values[t] == old(values)[t]
      ensures Spares(old(values), now, values) && (ok ==> Spares(values, now, old(values)) && NoneDead(values, now))
    {
      hide Spares, NoneDead, Ok, SortedKeys, Sorted, Elements, Dead, Alive, HandlesOf;
      ghost var start, first := values, live;
      var dead := Dead(values, now);
      var tokens := ListKeys(dead);
      AllElements(tokens, dead);
      AliveIs(start, now);
      NoElements(start, live);
      for i := 0 to |tokens|
        invariant Valid() && values == start - Elements(tokens[..i])
        invariant live == first - HandlesOf(start, Elements(tokens[..i]))
        invariant forall t :: t in Elements(tokens[..i]) ==> t in start && |start[t].handles| <= working
      {
        ElementsStep(start, tokens, i);
        HandlesStep(start, tokens, i);
        var closed := Close(tokens[i], working);
        if !closed {
          AliveKept(start, now, tokens, i, values[tokens[i]]);
          AliveSpared(start, now, values);
          return false;
        }
      }
      assert tokens[..|tokens|] == tokens;
      AliveSpared(start, now, values);
      OnlyAlive(start, now);
      return true;
    }
  }

  lemma AllElements(tokens: seq<Token>, dead: set<Token>)
    requires forall t :: t in tokens <==> t in dead
    ensures Elements(tokens) == dead
  {
  }

  lemma NoElements(start: Table, live: map<Token, Owned>)
    ensures start - Elements([]) == start && live - HandlesOf(start, Elements([])) == live && Elements<Token>([]) == {}
  {
  }

  /** Every handle of some sessions. */
  function HandlesOf(values: Table, tokens: set<Token>): set<Token> {
    set t, h | t in tokens && t in values && h in values[t].handles :: h
  }

  lemma HandlesStep(start: Table, tokens: seq<Token>, i: nat)
    requires i < |tokens| && tokens[i] in start
    ensures Elements(tokens[..i + 1]) == Elements(tokens[..i]) + {tokens[i]} && tokens[i] in Elements(tokens)
    ensures HandlesOf(start, Elements(tokens[..i + 1])) ==
      HandlesOf(start, Elements(tokens[..i])) + start[tokens[i]].handles.Keys
  {
    assert tokens[..i + 1] == tokens[..i] + [tokens[i]];
    assert Elements(tokens[..i + 1]) == Elements(tokens[..i]) + {tokens[i]};
  }

  lemma ElementsStep(start: Table, tokens: seq<Token>, i: nat)
    requires i < |tokens| && Elements(tokens) <= start.Keys && Sorted(tokens)
    ensures tokens[i] in start - Elements(tokens[..i])
    ensures start - Elements(tokens[..i + 1]) == start - Elements(tokens[..i]) - {tokens[i]}
  {
    hide Less;
    assert tokens[i] in tokens;
    forall j | 0 <= j < i ensures tokens[j] != tokens[i] { LessIrreflexive(tokens[i]); }
    assert tokens[..i + 1] == tokens[..i] + [tokens[i]];
    assert Elements(tokens[..i + 1]) == Elements(tokens[..i]) + {tokens[i]};
  }

  lemma AliveKept(start: Table, now: nat, tokens: seq<Token>, i: nat, s: Session)
    requires i < |tokens| && Elements(tokens) == Dead(start, now)
    ensures forall t :: t in Alive(start, now) ==>
      t in (start - Elements(tokens[..i]))[tokens[i] := s] &&
      (start - Elements(tokens[..i]))[tokens[i] := s][t] == start[t]
  {
    hide Dead;
    assert tokens[i] in Elements(tokens);
    assert Elements(tokens[..i]) <= Elements(tokens);
  }

  lemma AliveIs(start: Table, now: nat)
    ensures Alive(start, now) == start - Dead(start, now) && Dead(start, now) <= start.Keys
    ensures forall t :: t in Alive(start, now) ==> t in start && Alive(start, now)[t] == start[t]
  {
  }

  /** Every session still in use by then is in the other table as it is. */
  ghost predicate Spares(values: Table, now: nat, values': Table) {
    forall t :: t in values && !values[t].closing && now < values[t].deadline ==>
      t in values' && values'[t] == values[t]
  }

  ghost predicate NoneDead(values: Table, now: nat) {
    forall t :: t in values ==> !values[t].closing && now < values[t].deadline
  }

  lemma AliveSpared(start: Table, now: nat, values: Table)
    requires forall t :: t in Alive(start, now) ==> t in values && values[t] == start[t]
    ensures Spares(start, now, values)
  {
  }

  lemma OnlyAlive(start: Table, now: nat)
    ensures NoneDead(Alive(start, now), now) && Spares(Alive(start, now), now, start)
  {
  }

  function Dead(values: Table, now: nat): set<Token> {
    set t | t in values && (values[t].closing || now >= values[t].deadline)
  }

  function Alive(values: Table, now: nat): Table {
    values - Dead(values, now)
  }

  lemma Forgotten(values: Table, live: map<Token, Owned>, t: Token, s: Session)
    requires Ok(values[t := s], live) && s.handles == map[]
    ensures Ok(values - {t}, live)
  {
    hide Exclusive, Partition;
    var now := values[t := s];
    ExclusiveRemoved(now, t);
    PartitionRemoved(now, live, t);
    Fewer(now, t);
    assert now - {t} == values - {t};
  }

  lemma OneMore(values: Table, t: Token, s: Session)
    ensures |values[t := s]| == |values| + if t in values then 0 else 1
  {
    assert values[t := s].Keys == values.Keys + {t};
  }

  lemma OneLess(m: map<Token, Owned>, h: Token)
    requires h in m
    ensures |m - {h}| + 1 == |m|
  {
    assert m.Keys == (m - {h}).Keys + {h};
  }

  lemma NotEmpty(m: map<Token, Owned>)
    requires m != map[]
    ensures |m| > 0
  {
    var h :| h in m;
    OneLess(m, h);
  }

  lemma Fewer(values: Table, t: Token)
    ensures |values - {t}| <= |values|
  {
    assert (values - {t}).Keys <= values.Keys;
    SubsetSize((values - {t}).Keys, values.Keys);
  }
}
