/** Splitting of paths and symlink targets into names (daemon/namespace.cpp). */
module Paths {
  import opened Bytes

  type Name = Bytes

  const SLASH: byte := 47
  const DOT: Name := [46]
  const DOTDOT: Name := [46, 46]

  predicate Printable(s: Bytes) {
    forall c :: c in s ==> 32 <= c <= 126
  }

  /** A name that can stand in a directory. */
  predicate ValidName(n: Name) {
    0 < |n| <= 255 && n != DOT && n != DOTDOT && Printable(n) && SLASH !in n
  }

  /** The stretches between slashes, empty ones included. */
  function Split(s: Bytes): (parts: seq<Name>)
    ensures parts != []
  {
    if s == [] then [[]]
    else if s[0] == SLASH then [[]] + Split(s[1..])
    else
      var rest := Split(s[1..]);
      [[s[0]] + rest[0]] + rest[1..]
  }

  function Join(parts: seq<Name>): Bytes {
    if parts == [] then [] else if |parts| == 1 then parts[0] else parts[0] + [SLASH] + Join(parts[1..])
  }

  function Solid(parts: seq<Name>): seq<Name> {
    if parts == [] then [] else (if parts[0] == [] then [] else [parts[0]]) + Solid(parts[1..])
  }

  /** The names of an absolute path; None for the paths the source rejects. */
  ghost function Components(path: Bytes): Option<seq<Name>> {
    if path == [] || path[0] != SLASH || |path| > 4096 then None
    else if |path| == 1 then Some([])
    else if forall n :: n in Split(path[1..]) ==> ValidName(n) then Some(Split(path[1..]))
    else None
  }

  /** The names of a symlink target: repeated slashes vanish, a final one demands a directory. */
  ghost function Target(target: Bytes): Option<seq<Name>> {
    if target == [] || |target| > 4096 || !Printable(target) then None
    else
      var names := Solid(Split(target));
      if exists n :: n in names && |n| > 255 then None
      else if target[|target| - 1] == SLASH && names != [] then Some(names + [DOT])
      else Some(names)
  }

  // ---- Splitting is the inverse of joining ----

  lemma {:induction false} SplitJoin(s: Bytes)
    ensures Join(Split(s)) == s && forall n :: n in Split(s) ==> SLASH !in n
  {
    if s != [] {
      SplitJoin(s[1..]);
      var rest := Split(s[1..]);
      if s[0] == SLASH {
        assert ([[]] + rest)[1..] == rest;
      } else {
        var parts := [[s[0]] + rest[0]] + rest[1..];
        assert parts[1..] == rest[1..];
      }
    }
  }

  lemma JoinLess(parts: seq<Name>, less: seq<Name>)
    requires parts != [] && parts[0] != [] && less == [parts[0][1..]] + parts[1..]
    ensures Join(parts) == [parts[0][0]] + Join(less) && Join(parts)[1..] == Join(less)
  {
    assert parts[0] == [parts[0][0]] + parts[0][1..];
    assert less[1..] == parts[1..];
  }

  lemma {:induction false} JoinSplit(parts: seq<Name>)
    requires parts != [] && forall n :: n in parts ==> SLASH !in n
    ensures Split(Join(parts)) == parts
    decreases |parts|, |parts[0]|
  {
    if parts[0] != [] {
      var less := [parts[0][1..]] + parts[1..];
      forall n | n in less ensures SLASH !in n {
        if n == parts[0][1..] { assert parts[0] in parts; } else { assert n in parts; }
      }
      JoinLess(parts, less);
      JoinSplit(less);
      assert parts[0] in parts && parts[0][0] != SLASH;
      assert parts[0] == [parts[0][0]] + less[0] && parts[1..] == less[1..];
      assert parts == [[parts[0][0]] + less[0]] + less[1..];
    } else if |parts| > 1 {
      assert forall n :: n in parts[1..] ==> n in parts;
      JoinSplit(parts[1..]);
      assert Join(parts) == [SLASH] + Join(parts[1..]);
      assert Join(parts)[1..] == Join(parts[1..]);
      assert parts == [[]] + parts[1..];
    } else {
      assert parts == [[]];
    }
  }

  // ---- The parsing loops ----

  method FindSlash(s: Bytes, from: nat) returns (end: nat)
    requires from <= |s|
    ensures from <= end <= |s| && SLASH !in s[from..end] && (end < |s| ==> s[end] == SLASH)
  {
    end := from;
    while end < |s| && s[end] != SLASH
      invariant from <= end <= |s| && SLASH !in s[from..end]
    {
      end := end + 1;
    }
  }

  lemma {:induction false} SplitAt(s: Bytes, end: nat)
    requires end <= |s| && SLASH !in s[..end] && (end < |s| ==> s[end] == SLASH)
    ensures Split(s) == if end == |s| then [s] else [s[..end]] + Split(s[end + 1..])
  {
    if end > 0 {
      assert s[0] in s[..end];
      assert s[1..][..end - 1] == s[..end][1..];
      SplitAt(s[1..], end - 1);
      var rest := Split(s[1..]);
      assert [s[0]] + s[1..] == s && [s[0]] + s[1..][..end - 1] == s[..end];
      if end < |s| { assert s[1..][end..] == s[end + 1..]; }
    }
  }

  /** What is left to split from a position on; nothing once past the end. */
  function Rest(s: Bytes, from: nat): seq<Name> {
    if from <= |s| then Split(s[from..]) else []
  }

  lemma RestStep(s: Bytes, from: nat, end: nat)
    requires from <= end <= |s| && SLASH !in s[from..end] && (end < |s| ==> s[end] == SLASH)
    ensures Rest(s, from) == [s[from..end]] + Rest(s, end + 1)
  {
    hide Split;
    assert s[from..][..end - from] == s[from..end];
    SplitAt(s[from..], end - from);
    if end < |s| { assert s[from..][end - from + 1..] == s[end + 1..]; } else { assert s[from..] == s[from..end]; }
  }

  lemma RestEnd(s: Bytes)
    ensures Rest(s, |s|) == [[]] && Rest(s, |s| + 1) == [] && !ValidName([])
  {
  }

  lemma PathRefused(path: Bytes, names: seq<Name>, name: Name, rest: seq<Name>)
    requires |path| > 1 && Rest(path, 1) == names + [name] + rest && !ValidName(name)
    ensures Components(path) == None
  {
    hide Split, ValidName;
    assert Split(path[1..])[|names|] == name;
  }

  method ParsePath(path: Bytes) returns (result: Option<seq<Name>>)
    ensures result == Components(path)
  {
    hide Rest, ValidName;
    if path == [] || path[0] != SLASH || |path| > 4096 { return None; }
    if |path| == 1 { return Some([]); }
    var begin, names := 1, [];
    RestEnd(path);
    while begin < |path|
      invariant 1 <= begin <= |path| + 1 && begin != |path|
      invariant Rest(path, 1) == names + Rest(path, begin)
      invariant forall n :: n in names ==> ValidName(n)
    {
      hide *;
      var end := FindSlash(path, begin);
      RestStep(path, begin, end);
      var name := path[begin..end];
      ghost var rest := Rest(path, end + 1);
      assert names + ([name] + rest) == names + [name] + rest;
      if !ValidName(name) { PathRefused(path, names, name, rest); return None; }
      names := names + [name];
      begin := end + 1;
      if begin == |path| {
        assert names + rest == names + rest + [];
        PathRefused(path, names, [], []);
        return None;
      }
    }
    PathTaken(path, names);
    return Some(names);
  }

  lemma PathTaken(path: Bytes, names: seq<Name>)
    requires 1 < |path| <= 4096 && path[0] == SLASH && Rest(path, 1) == names && forall n :: n in names ==> ValidName(n)
    ensures Components(path) == Some(names)
  {
    hide Split, ValidName;
  }

  lemma SolidFirst(n: Name, rest: seq<Name>)
    ensures Solid([n] + rest) == (if n == [] then [] else [n]) + Solid(rest) && Solid([]) == []
  {
    assert ([n] + rest)[1..] == rest;
  }

  lemma TargetRefused(target: Bytes, names: seq<Name>, name: Name, rest: seq<Name>)
    requires Solid(Rest(target, 0)) == names + [name] + rest && |name| > 255
    ensures Target(target) == None
  {
    hide Split, Solid, Printable;
    assert target[0..] == target;
    assert Solid(Split(target))[|names|] == name;
  }

  lemma TargetTaken(target: Bytes, names: seq<Name>)
    requires 0 < |target| <= 4096 && Printable(target) && Solid(Rest(target, 0)) == names
    requires forall n :: n in names ==> |n| <= 255
    ensures Target(target) == Some(if target[|target| - 1] == SLASH && names != [] then names + [DOT] else names)
  {
    hide Split, Solid, Printable;
    assert target[0..] == target;
  }

  method ParseTarget(target: Bytes) returns (result: Option<seq<Name>>)
    ensures result == Target(target)
  {
    hide Rest, Solid;
    if target == [] || |target| > 4096 || !Printable(target) { return None; }
    var start, names := 0, [];
    RestEnd(target);
    SolidFirst([], []);
    while start < |target|
      invariant 0 <= start <= |target| + 1
      invariant Solid(Rest(target, 0)) == names + Solid(Rest(target, start))
      invariant forall n :: n in names ==> |n| <= 255
    {
      hide *;
      var end := FindSlash(target, start);
      RestStep(target, start, end);
      var name := target[start..end];
      ghost var rest := Rest(target, end + 1);
      SolidFirst(name, rest);
      if name != [] {
        assert names + ([name] + Solid(rest)) == names + [name] + Solid(rest);
        if |name| > 255 { TargetRefused(target, names, name, Solid(rest)); return None; }
        names := names + [name];
      }
      start := end + 1;
    }
    assert Rest(target, |target|) == Rest(target, |target|) + [];
    assert Solid(Rest(target, start)) == [];
    TargetTaken(target, names);
    if target[|target| - 1] == SLASH && names != [] { names := names + [DOT]; }
    return Some(names);
  }
}
