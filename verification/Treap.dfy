/** The persistent metadata treap as a value (daemon/metadata_tree.cpp).

    A node identity is its content: Zero, or the key, value and child identities the
    stored node holds. Priorities are any function of keys; ties go to the larger key. */
module Treap {
  import opened Bytes
  import opened JournalCodec

  type Key = Bytes
  type Priority = Key -> nat

  datatype Id = Zero | Node(key: Key, value: Hash, left: Id, right: Id)

  predicate Higher(p: Priority, a: Key, b: Key) {
    if p(a) == p(b) then Less(b, a) else p(a) > p(b)
  }

  function Keys(t: Id): set<Key> {
    if t.Zero? then {} else Keys(t.left) + {t.key} + Keys(t.right)
  }

  /** What a tree means. */
  function Map(t: Id): (m: map<Key, Hash>)
    ensures m.Keys == Keys(t)
  {
    if t.Zero? then map[] else Map(t.left) + Map(t.right) + map[t.key := t.value]
  }

  ghost predicate Below(s: set<Key>, k: Key) {
    forall x :: x in s ==> Less(x, k)
  }

  ghost predicate Above(s: set<Key>, k: Key) {
    forall x :: x in s ==> Less(k, x)
  }

  ghost predicate Under(p: Priority, k: Key, s: set<Key>) {
    forall x :: x in s ==> Higher(p, k, x)
  }

  /** Search order and heap order. */
  ghost predicate Ordered(p: Priority, t: Id) {
    t.Zero? ||
    (Ordered(p, t.left) && Ordered(p, t.right) && Below(Keys(t.left), t.key) && Above(Keys(t.right), t.key) &&
     Under(p, t.key, Keys(t.left)) && Under(p, t.key, Keys(t.right)))
  }

  // ---- Edits ----

  function Merge(p: Priority, l: Id, r: Id): Id {
    if l.Zero? then r
    else if r.Zero? then l
    else if Higher(p, l.key, r.key) then l.(right := Merge(p, l.right, r))
    else r.(left := Merge(p, l, r.left))
  }

  /** Puts an edited left (right) subtree back, rotating if its root now belongs on top. */
  function RaiseLeft(p: Priority, n: Id, left: Id): Id
    requires n.Node?
  {
    if left.Node? && Higher(p, left.key, n.key)
    then left.(right := n.(left := left.right))
    else n.(left := left)
  }

  function RaiseRight(p: Priority, n: Id, right: Id): Id
    requires n.Node?
  {
    if right.Node? && Higher(p, right.key, n.key)
    then right.(left := n.(right := right.left))
    else n.(right := right)
  }

  function Set(p: Priority, t: Id, key: Key, value: Option<Hash>): Id {
    if t.Zero? then (if value.None? then Zero else Node(key, value.value, Zero, Zero))
    else if key == t.key then (if value.None? then Merge(p, t.left, t.right) else t.(value := value.value))
    else if Less(key, t.key) then RaiseLeft(p, t, Set(p, t.left, key, value))
    else RaiseRight(p, t, Set(p, t.right, key, value))
  }

  function Edit(m: map<Key, Hash>, key: Key, value: Option<Hash>): map<Key, Hash> {
    match value case None => m - {key} case Some(v) => m[key := v]
  }

  // ---- The priority order ----

  lemma HigherTotal(p: Priority, a: Key, b: Key)
    ensures a == b || Higher(p, a, b) || Higher(p, b, a)
  {
    LessTotal(a, b);
  }

  lemma HigherAsymmetric(p: Priority, a: Key, b: Key)
    requires Higher(p, a, b)
    ensures !Higher(p, b, a) && a != b
  {
    if p(a) == p(b) { LessAsymmetric(b, a); }
  }

  lemma HigherTransitive(p: Priority, a: Key, b: Key, c: Key)
    requires Higher(p, a, b) && Higher(p, b, c)
    ensures Higher(p, a, c)
  {
    if p(a) == p(b) && p(b) == p(c) { LessTransitive(c, b, a); }
  }

  lemma UnderUnder(p: Priority, a: Key, b: Key, s: set<Key>)
    requires Higher(p, a, b) && Under(p, b, s)
    ensures Under(p, a, s + {b})
  {
    hide Higher;
    forall x | x in s ensures Higher(p, a, x) { HigherTransitive(p, a, b, x); }
  }

  lemma AboveBelow(a: set<Key>, k: Key, b: set<Key>)
    requires Below(a, k) && Above(b, k)
    ensures forall x, y :: x in a && y in b ==> Less(x, y)
  {
    hide Less;
    forall x, y | x in a && y in b ensures Less(x, y) { LessTransitive(x, k, y); }
  }

  // ---- Merge ----

  /** Merging two ordered treaps keeps both orders and every entry. */
  lemma {:induction false} MergeTreap(p: Priority, l: Id, r: Id)
    requires Ordered(p, l) && Ordered(p, r) && forall x, y :: x in Keys(l) && y in Keys(r) ==> Less(x, y)
    ensures Ordered(p, Merge(p, l, r)) && Keys(Merge(p, l, r)) == Keys(l) + Keys(r)
  {
    hide Higher, Less;
    if l.Node? && r.Node? {
      if Higher(p, l.key, r.key) {
        MergeTreap(p, l.right, r);
        UnderUnder(p, l.key, r.key, Keys(r.left) + Keys(r.right));
      } else {
        MergeTreap(p, l, r.left);
        assert l.key != r.key by { assert Less(l.key, r.key); LessIrreflexive(l.key); }
        HigherTotal(p, l.key, r.key);
        UnderUnder(p, r.key, l.key, Keys(l.left) + Keys(l.right));
      }
    }
  }

  lemma Regroup(a: map<Key, Hash>, b: map<Key, Hash>, c: map<Key, Hash>, k: Key, v: Hash)
    ensures k !in c ==> a + (b + c) + map[k := v] == (a + b + map[k := v]) + c
    ensures (a + b) + c + map[k := v] == a + (b + c + map[k := v])
  {
  }

  lemma {:induction false} MergeMap(p: Priority, l: Id, r: Id)
    requires Ordered(p, l) && Ordered(p, r) && forall x, y :: x in Keys(l) && y in Keys(r) ==> Less(x, y)
    ensures Map(Merge(p, l, r)) == Map(l) + Map(r)
  {
    hide Higher, Less, Below, Above, Under;
    if l.Node? && r.Node? {
      if Higher(p, l.key, r.key) {
        MergeMap(p, l.right, r);
        LessIrreflexive(l.key);
        Regroup(Map(l.left), Map(l.right), Map(r), l.key, l.value);
      } else {
        MergeMap(p, l, r.left);
        Regroup(Map(l), Map(r.left), Map(r.right), r.key, r.value);
      }
    }
  }

  // ---- Set ----

  lemma BelowNot(s: set<Key>, k: Key)
    requires Below(s, k) || Above(s, k)
    ensures k !in s
  {
    LessIrreflexive(k);
  }

  lemma OtherSide(s: set<Key>, k: Key, key: Key)
    ensures Above(s, k) && Less(key, k) ==> key !in s
    ensures Below(s, k) && Less(k, key) ==> key !in s
  {
    if Less(key, k) { LessAsymmetric(key, k); }
    if Less(k, key) { LessAsymmetric(k, key); }
  }

  /** An edit leaves a treap, and only the edited key can appear or vanish. */
  lemma {:induction false} SetTreap(p: Priority, t: Id, key: Key, value: Option<Hash>)
    requires Ordered(p, t)
    ensures Ordered(p, Set(p, t, key, value))
    ensures Keys(Set(p, t, key, value)) == if value.None? then Keys(t) - {key} else Keys(t) + {key}
  {
    hide Higher, Less;
    if t.Node? {
      BelowNot(Keys(t.left), t.key);
      BelowNot(Keys(t.right), t.key);
      if key == t.key {
        AboveBelow(Keys(t.left), t.key, Keys(t.right));
        MergeTreap(p, t.left, t.right);
      } else {
        LessTotal(key, t.key);
        if Less(key, t.key) {
          SetTreap(p, t.left, key, value);
          LessAsymmetric(key, t.key);
          RaiseLeftTreap(p, t, key, value);
        } else {
          SetTreap(p, t.right, key, value);
          RaiseRightTreap(p, t, key, value);
        }
      }
    }
  }

  lemma RaiseLeftTreap(p: Priority, t: Id, key: Key, value: Option<Hash>)
    requires t.Node? && Ordered(p, t) && Less(key, t.key)
    requires var left := Set(p, t.left, key, value);
             Ordered(p, left) && Keys(left) == if value.None? then Keys(t.left) - {key} else Keys(t.left) + {key}
    ensures var r := RaiseLeft(p, t, Set(p, t.left, key, value));
            Ordered(p, r) && Keys(r) == if value.None? then Keys(t) - {key} else Keys(t) + {key}
  {
    hide Higher, Less, Set;
    var left := Set(p, t.left, key, value);
    OtherSide(Keys(t.right), t.key, key);
    LessIrreflexive(key);
    if left.Node? {
      HigherTotal(p, left.key, t.key);
      if Higher(p, left.key, t.key) {
        HigherAsymmetric(p, left.key, t.key);
        assert left.key == key;
        BelowNot(Keys(left.right), left.key);
        UnderUnder(p, left.key, t.key, Keys(t.left) + Keys(t.right));
        forall x | x in Keys(t.right) ensures Less(left.key, x) { LessTransitive(left.key, t.key, x); }
        assert Ordered(p, t.(left := left.right));
      } else {
        LessIrreflexive(t.key);
        UnderUnder(p, t.key, left.key, Keys(left.left) + Keys(left.right));
      }
    }
  }

  lemma RaiseRightTreap(p: Priority, t: Id, key: Key, value: Option<Hash>)
    requires t.Node? && Ordered(p, t) && Less(t.key, key)
    requires var right := Set(p, t.right, key, value);
             Ordered(p, right) && Keys(right) == if value.None? then Keys(t.right) - {key} else Keys(t.right) + {key}
    ensures var r := RaiseRight(p, t, Set(p, t.right, key, value));
            Ordered(p, r) && Keys(r) == if value.None? then Keys(t) - {key} else Keys(t) + {key}
  {
    hide Higher, Less, Set;
    var right := Set(p, t.right, key, value);
    OtherSide(Keys(t.left), t.key, key);
    LessIrreflexive(key);
    if right.Node? {
      HigherTotal(p, right.key, t.key);
      if Higher(p, right.key, t.key) {
        HigherAsymmetric(p, right.key, t.key);
        assert right.key == key;
        BelowNot(Keys(right.left), right.key);
        UnderUnder(p, right.key, t.key, Keys(t.left) + Keys(t.right));
        forall x | x in Keys(t.left) ensures Less(x, right.key) { LessTransitive(x, t.key, right.key); }
        assert Ordered(p, t.(right := right.left));
      } else {
        LessIrreflexive(t.key);
        UnderUnder(p, t.key, right.key, Keys(right.left) + Keys(right.right));
      }
    }
  }

  lemma RotateRightMap(a: map<Key, Hash>, b: map<Key, Hash>, c: map<Key, Hash>, k: Key, v: Hash, n: Key, w: Hash)
    requires k != n && k !in c && n !in a && n !in b && k !in b
    requires a.Keys !! c.Keys && b.Keys !! c.Keys
    ensures a + (b + c + map[n := w]) + map[k := v] == (a + b + map[k := v]) + c + map[n := w]
  {
  }

  lemma RotateLeftMap(a: map<Key, Hash>, b: map<Key, Hash>, c: map<Key, Hash>, k: Key, v: Hash, n: Key, w: Hash)
    requires k != n && k !in a && n !in b && n !in c && k !in b
    ensures (a + b + map[n := w]) + c + map[k := v] == a + (b + c + map[k := v]) + map[n := w]
  {
  }

  /** Rotations never change what a tree means. */
  lemma RaiseMap(p: Priority, n: Id, sub: Id)
    requires n.Node? && Ordered(p, sub)
    ensures Below(Keys(sub), n.key) && Above(Keys(n.right), n.key) ==>
              Map(RaiseLeft(p, n, sub)) == Map(sub) + Map(n.right) + map[n.key := n.value]
    ensures Above(Keys(sub), n.key) && Below(Keys(n.left), n.key) ==>
              Map(RaiseRight(p, n, sub)) == Map(n.left) + Map(sub) + map[n.key := n.value]
  {
    hide Higher, Less, Under;
    if sub.Node? && Higher(p, sub.key, n.key) {
      BelowNot(Keys(sub.left), sub.key);
      BelowNot(Keys(sub.right), sub.key);
      if Below(Keys(sub), n.key) && Above(Keys(n.right), n.key) {
        BelowNot(Keys(sub), n.key);
        BelowNot(Keys(n.right), n.key);
        AboveBelow(Keys(sub), n.key, Keys(n.right));
        Disjoint(Keys(sub), Keys(n.right));
        RotateRightMap(Map(sub.left), Map(sub.right), Map(n.right), sub.key, sub.value, n.key, n.value);
      }
      if Above(Keys(sub), n.key) && Below(Keys(n.left), n.key) {
        BelowNot(Keys(sub), n.key);
        AboveBelow(Keys(n.left), n.key, Keys(sub));
        Disjoint(Keys(n.left), Keys(sub));
        RotateLeftMap(Map(n.left), Map(sub.left), Map(sub.right), sub.key, sub.value, n.key, n.value);
      }
    }
  }

  lemma Disjoint(a: set<Key>, b: set<Key>)
    requires forall x, y :: x in a && y in b ==> Less(x, y)
    ensures a !! b
  {
    if x :| x in a && x in b { LessIrreflexive(x); }
  }

  lemma EditLeft(l: map<Key, Hash>, r: map<Key, Hash>, k: Key, v: Hash, key: Key, value: Option<Hash>)
    requires key != k && key !in r
    ensures Edit(l, key, value) + r + map[k := v] == Edit(l + r + map[k := v], key, value)
  {
  }

  lemma EditRight(l: map<Key, Hash>, r: map<Key, Hash>, k: Key, v: Hash, key: Key, value: Option<Hash>)
    requires key != k && key !in l
    ensures l + Edit(r, key, value) + map[k := v] == Edit(l + r + map[k := v], key, value)
  {
  }

  lemma EditHere(l: map<Key, Hash>, r: map<Key, Hash>, k: Key, v: Hash, value: Option<Hash>)
    requires k !in l && k !in r
    ensures Edit(l + r + map[k := v], k, value) == match value case None => l + r case Some(w) => l + r + map[k := w]
  {
  }

  /** `set` is a map update. */
  lemma {:induction false} SetMap(p: Priority, t: Id, key: Key, value: Option<Hash>)
    requires Ordered(p, t)
    ensures Map(Set(p, t, key, value)) == Edit(Map(t), key, value)
  {
    hide Higher, Less, Under, RaiseLeft, RaiseRight;
    if t.Node? {
      BelowNot(Keys(t.left), t.key);
      BelowNot(Keys(t.right), t.key);
      if key == t.key {
        AboveBelow(Keys(t.left), t.key, Keys(t.right));
        MergeMap(p, t.left, t.right);
        EditHere(Map(t.left), Map(t.right), t.key, t.value, value);
      } else {
        LessTotal(key, t.key);
        if Less(key, t.key) {
          SetTreap(p, t.left, key, value);
          SetMap(p, t.left, key, value);
          OtherSide(Keys(t.right), t.key, key);
          RaiseMap(p, t, Set(p, t.left, key, value));
          EditLeft(Map(t.left), Map(t.right), t.key, t.value, key, value);
        } else {
          SetTreap(p, t.right, key, value);
          SetMap(p, t.right, key, value);
          OtherSide(Keys(t.left), t.key, key);
          RaiseMap(p, t, Set(p, t.right, key, value));
          EditRight(Map(t.left), Map(t.right), t.key, t.value, key, value);
        }
      }
    }
  }

  // ---- One map, one tree ----

  lemma SplitMap(p: Priority, t: Id)
    requires t.Node? && Ordered(p, t)
    ensures Map(t.left) == map k | k in Map(t) && Less(k, t.key) :: Map(t)[k]
    ensures Map(t.right) == map k | k in Map(t) && Less(t.key, k) :: Map(t)[k]
    ensures Map(t)[t.key] == t.value
  {
    hide Less, Higher, Under;
    BelowNot(Keys(t.left), t.key);
    BelowNot(Keys(t.right), t.key);
    AboveBelow(Keys(t.left), t.key, Keys(t.right));
    Disjoint(Keys(t.left), Keys(t.right));
    forall k | k in Keys(t.left) ensures !Less(t.key, k) { LessAsymmetric(k, t.key); }
    forall k | k in Keys(t.right) ensures !Less(k, t.key) { LessAsymmetric(t.key, k); }
    LessIrreflexive(t.key);
  }

  /** Two treaps with the same entries are the same tree, even where priorities tie. */
  lemma {:induction false} Canonical(p: Priority, a: Id, b: Id)
    requires Ordered(p, a) && Ordered(p, b) && Map(a) == Map(b)
    ensures a == b
  {
    hide Less, Higher, Below, Above;
    assert Keys(a) == Keys(b);
    if a.Node? && b.Node? {
      assert a.key in Keys(b) && b.key in Keys(a);
      if a.key != b.key {
        assert Higher(p, a.key, b.key) && Higher(p, b.key, a.key);
        HigherAsymmetric(p, a.key, b.key);
      }
      SplitMap(p, a);
      SplitMap(p, b);
      Canonical(p, a.left, b.left);
      Canonical(p, a.right, b.right);
    }
  }

  /** A sequence of edits, from any starting tree. */
  function SetAll(p: Priority, t: Id, edits: seq<(Key, Option<Hash>)>): Id {
    if edits == [] then t
    else Set(p, SetAll(p, t, edits[..|edits| - 1]), edits[|edits| - 1].0, edits[|edits| - 1].1)
  }

  function EditAll(m: map<Key, Hash>, edits: seq<(Key, Option<Hash>)>): map<Key, Hash> {
    if edits == [] then m
    else Edit(EditAll(m, edits[..|edits| - 1]), edits[|edits| - 1].0, edits[|edits| - 1].1)
  }

  lemma {:induction false} SetAllMap(p: Priority, t: Id, edits: seq<(Key, Option<Hash>)>)
    requires Ordered(p, t)
    ensures Ordered(p, SetAll(p, t, edits)) && Map(SetAll(p, t, edits)) == EditAll(Map(t), edits)
  {
    hide Ordered, Set, Map;
    if edits != [] {
      var n := |edits| - 1;
      SetAllMap(p, t, edits[..n]);
      SetTreap(p, SetAll(p, t, edits[..n]), edits[n].0, edits[n].1);
      SetMap(p, SetAll(p, t, edits[..n]), edits[n].0, edits[n].1);
    }
  }

  /** The root identity depends only on the final map: any two edit histories, from
      any two starting trees, that reach the same map give the same root. */
  lemma HistoryIndependent(p: Priority, a: Id, b: Id, one: seq<(Key, Option<Hash>)>, two: seq<(Key, Option<Hash>)>)
    requires Ordered(p, a) && Ordered(p, b) && EditAll(Map(a), one) == EditAll(Map(b), two)
    ensures SetAll(p, a, one) == SetAll(p, b, two)
  {
    hide Ordered, Map, SetAll, EditAll;
    SetAllMap(p, a, one);
    SetAllMap(p, b, two);
    Canonical(p, SetAll(p, a, one), SetAll(p, b, two));
  }
}
