/** What keeps a filter from being normalized, by where it is (resolve/normalize.go:96-132): a term that can
    neither be enumerated nor kept as a test, a symbolic filter-set under a range operator, or a cycle of them. */
module NormalizeBlocks {
  import opened Prefixes
  import opened Filters
  import opened FilterFixpoint
  import opened FilterBlocks
  import opened Unfolding
  import opened NormalizeErrors

  /** f itself, under NOT, AND and OR, holds an enumerable part without a value, a test that cannot be used, or a
      symbolic filter-set under an operator. */
  ghost predicate HasObstacle(env: Env, f: Filter)
    decreases f, 1
  {
    if !Symbolic(env, f) then Blocked(env, f)
    else match f
      case FNot(g) => HasObstacle(env, g)
      case FOr(ts) => AnyHasObstacle(env, ts)
      case FAnd(ts) => AnyHasObstacle(env, ts)
      case FTest(_, usable) => !usable
      case FFilterSet(_, op) => !op.IsZero()
      case _ => false
  }

  ghost predicate AnyHasObstacle(env: Env, ts: seq<Filter>)
    decreases ts, 0
  {
    ts != [] && (HasObstacle(env, ts[0]) || AnyHasObstacle(env, ts[1..]))
  }

  /** The symbolic filter-sets f names. */
  ghost function Inlined(env: Env, f: Filter): set<string>
    decreases f, 1
  {
    if !Symbolic(env, f) then {}
    else match f
      case FNot(g) => Inlined(env, g)
      case FOr(ts) => AllInlined(env, ts)
      case FAnd(ts) => AllInlined(env, ts)
      case FFilterSet(n, _) => {n}
      case _ => {}
  }

  ghost function AllInlined(env: Env, ts: seq<Filter>): set<string>
    decreases ts, 0
  {
    if ts == [] then {} else Inlined(env, ts[0]) + AllInlined(env, ts[1..])
  }

  /** From f, each filter-set of path is named by the one before. */
  ghost predicate Follows(env: Env, f: Filter, path: seq<string>)
    decreases |path|
  {
    path == [] || (path[0] in Inlined(env, f) && path[0] in env.sets && Follows(env, env.sets[path[0]], path[1..]))
  }

  /** The filter path comes to. */
  ghost function EndOf(env: Env, f: Filter, path: seq<string>): Filter
    requires Follows(env, f, path)
    decreases |path|
  {
    if path == [] then f else EndOf(env, env.sets[path[0]], path[1..])
  }

  ghost predicate ObstacleAt(env: Env, f: Filter, path: seq<string>) {
    Follows(env, f, path) && HasObstacle(env, EndOf(env, f, path))
  }

  predicate Repeats(path: seq<string>) { exists i, j :: 0 <= i < j < |path| && path[i] == path[j] }

  /** f comes to an obstacle, or to a symbolic filter-set twice on one path. */
  ghost predicate Obstructed(env: Env, f: Filter) {
    exists path :: ObstacleAt(env, f, path) || (Follows(env, f, path) && Repeats(path))
  }

  // ---- an obstructed filter has no normal form ----

  lemma {:induction false} FollowsJoin(env: Env, f: Filter, a: seq<string>, b: seq<string>)
    ensures Follows(env, f, a + b) <==> Follows(env, f, a) && Follows(env, EndOf(env, f, a), b)
    ensures Follows(env, f, a + b) ==> EndOf(env, f, a + b) == EndOf(env, EndOf(env, f, a), b)
    decreases |a|
  {
    if a == [] {
      assert a + b == b;
    } else {
      assert (a + b)[0] == a[0] && (a + b)[1..] == a[1..] + b;
      if a[0] in env.sets { FollowsJoin(env, env.sets[a[0]], a[1..], b); }
    }
  }

  /** What f's normal form needs of itself and of the filter-sets it names. */
  lemma {:induction false} CanHere(env: Env, f: Filter, fuel: nat)
    requires env.Valid() && CanAt(env, f, fuel)
    ensures !HasObstacle(env, f)
    ensures forall n :: n in Inlined(env, f) ==> fuel > 0 && n in env.sets && CanAt(env, env.sets[n], fuel - 1)
    decreases f, 1
  {
    if Symbolic(env, f) {
      match f
      case FNot(g) => CanHere(env, g, fuel);
      case FOr(ts) => EachCanHere(env, ts, fuel, false);
      case FAnd(ts) => EachCanHere(env, ts, fuel, true);
      case FTest(_, _) =>
      case FFilterSet(_, _) =>
    }
  }

  lemma {:induction false} EachCanHere(env: Env, ts: seq<Filter>, fuel: nat, and: bool)
    requires env.Valid() && EachCanAt(env, ts, fuel) && FoldEvaluates(env, ts, and)
    ensures !AnyHasObstacle(env, ts)
    ensures forall n :: n in AllInlined(env, ts) ==> fuel > 0 && n in env.sets && CanAt(env, env.sets[n], fuel - 1)
    decreases ts, 0
  {
    if ts != [] {
      FoldTail(env, ts, and);
      EachCanHere(env, ts[1..], fuel, and);
      if Symbolic(env, ts[0]) { CanHere(env, ts[0], fuel); }
    }
  }

  lemma {:induction false} FoldTail(env: Env, ts: seq<Filter>, and: bool)
    requires env.Valid() && ts != [] && FoldEvaluates(env, ts, and)
    ensures FoldEvaluates(env, ts[1..], and) && (!Symbolic(env, ts[0]) ==> !Blocked(env, ts[0]))
  {
    var all, rest := Enumerable(env, ts), Enumerable(env, ts[1..]);
    if !Symbolic(env, ts[0]) {
      assert all == [ts[0]] + rest;
      if Blocked(env, ts[0]) { BlockedTerm(env, Folded(all, and), 0); }
      if rest != [] && Blocked(env, Folded(rest, and)) {
        var i := BlockedByTerm(env, Folded(rest, and));
        BlockedTerm(env, Folded(all, and), i + 1);
      }
    } else {
      assert all == rest;
    }
  }

  lemma {:induction false} CanAlong(env: Env, f: Filter, fuel: nat, path: seq<string>)
    requires env.Valid() && CanAt(env, f, fuel) && Follows(env, f, path)
    ensures |path| <= fuel && CanAt(env, EndOf(env, f, path), fuel - |path|)
    decreases |path|
  {
    CanHere(env, f, fuel);
    if path != [] { CanAlong(env, env.sets[path[0]], fuel - 1, path[1..]); }
  }

  lemma {:induction false} LoopCannot(env: Env, f: Filter, loop: seq<string>, fuel: nat)
    requires env.Valid() && loop != [] && Follows(env, f, loop) && EndOf(env, f, loop) == f
    ensures !CanAt(env, f, fuel)
    decreases fuel
  {
    if CanAt(env, f, fuel) {
      CanAlong(env, f, fuel, loop);
      LoopCannot(env, f, loop, fuel - |loop|);
    }
  }

  lemma {:induction false} EndIsLast(env: Env, f: Filter, path: seq<string>)
    requires Follows(env, f, path) && path != []
    ensures path[|path| - 1] in env.sets && EndOf(env, f, path) == env.sets[path[|path| - 1]]
    decreases |path|
  {
    if |path| > 1 { EndIsLast(env, env.sets[path[0]], path[1..]); }
  }

  lemma {:induction false} RepeatCannot(env: Env, f: Filter, path: seq<string>, fuel: nat)
    requires env.Valid() && Follows(env, f, path) && Repeats(path)
    ensures !CanAt(env, f, fuel)
  {
    var i, j :| 0 <= i < j < |path| && path[i] == path[j];
    var a, b := path[..i + 1], path[i + 1..j + 1];
    assert path == (a + b) + path[j + 1..];
    FollowsJoin(env, f, a + b, path[j + 1..]);
    FollowsJoin(env, f, a, b);
    EndIsLast(env, f, a);
    EndIsLast(env, f, a + b);
    if CanAt(env, f, fuel) {
      CanAlong(env, f, fuel, a);
      LoopCannot(env, EndOf(env, f, a), b, fuel - |a|);
    }
  }

  // ---- and any other has one ----

  /** A path in which no filter-set comes twice is no longer than there are filter-sets. */
  lemma {:induction false} NoLonger(path: seq<string>, all: set<string>)
    requires !Repeats(path) && forall i :: 0 <= i < |path| ==> path[i] in all
    ensures |path| <= |all|
    decreases |path|
  {
    if path != [] {
      var n := |path| - 1;
      var init, last := path[..n], path[n];
      forall i | 0 <= i < |init| ensures init[i] in all - {last} { assert init[i] == path[i] != path[n]; }
      NoLonger(init, all - {last});
    }
  }

  lemma {:induction false} FollowsNames(env: Env, f: Filter, path: seq<string>)
    requires Follows(env, f, path)
    ensures forall i :: 0 <= i < |path| ==> path[i] in env.sets
    decreases |path|
  {
    if path != [] { FollowsNames(env, env.sets[path[0]], path[1..]); }
  }

  /** What f0 comes to by path has a normal form as deep as the filter-sets not yet on the path. */
  lemma {:induction false} CanFrom(env: Env, f0: Filter, path: seq<string>)
    requires env.Valid() && WellFormed(f0) && !Obstructed(env, f0) && Follows(env, f0, path)
    ensures |path| <= |env.sets.Keys| && CanAt(env, EndOf(env, f0, path), |env.sets.Keys| - |path|)
    decreases |env.sets.Keys| - |path|, 1
  {
    FollowsNames(env, f0, path);
    assert !Repeats(path);
    NoLonger(path, env.sets.Keys);
    EndFormed(env, f0, path);
    assert !ObstacleAt(env, f0, path);
    CanPart(env, f0, path, EndOf(env, f0, path));
  }

  lemma {:induction false} EndFormed(env: Env, f: Filter, path: seq<string>)
    requires env.Valid() && WellFormed(f) && Follows(env, f, path)
    ensures WellFormed(EndOf(env, f, path))
    decreases |path|
  {
    if path != [] { EndFormed(env, env.sets[path[0]], path[1..]); }
  }

  /** The same of a part of it. */
  lemma {:induction false} CanPart(env: Env, f0: Filter, path: seq<string>, g: Filter)
    requires env.Valid() && WellFormed(f0) && !Obstructed(env, f0) && Follows(env, f0, path)
    requires |path| <= |env.sets.Keys| && WellFormed(g) && !HasObstacle(env, g)
    requires Inlined(env, g) <= Inlined(env, EndOf(env, f0, path))
    ensures CanAt(env, g, |env.sets.Keys| - |path|)
    decreases |env.sets.Keys| - |path|, 0, g, 1
  {
    if Symbolic(env, g) {
      match g
      case FNot(h) => CanPart(env, f0, path, h);
      case FOr(ts) => CanParts(env, f0, path, ts, false);
      case FAnd(ts) => CanParts(env, f0, path, ts, true);
      case FTest(_, _) =>
      case FFilterSet(n, _) =>
        SymbolicSet(env, g);
        FollowsJoin(env, f0, path, [n]);
        assert Follows(env, EndOf(env, f0, path), [n]);
        NextShorter(env, f0, path, n);
        CanFrom(env, f0, path + [n]);
      case _ => OnlyGroupsSymbolic(env, g);
    }
  }

  lemma {:induction false} NextShorter(env: Env, f0: Filter, path: seq<string>, n: string)
    requires env.Valid() && !Obstructed(env, f0) && Follows(env, f0, path + [n])
    ensures |path| < |env.sets.Keys|
  {
    FollowsNames(env, f0, path + [n]);
    assert !Repeats(path + [n]);
    NoLonger(path + [n], env.sets.Keys);
  }

  lemma {:induction false} CanParts(env: Env, f0: Filter, path: seq<string>, ts: seq<Filter>, and: bool)
    requires env.Valid() && WellFormed(f0) && !Obstructed(env, f0) && Follows(env, f0, path)
    requires |path| <= |env.sets.Keys| && (forall t :: t in ts ==> WellFormed(t)) && !AnyHasObstacle(env, ts)
    requires AllInlined(env, ts) <= Inlined(env, EndOf(env, f0, path))
    ensures EachCanAt(env, ts, |env.sets.Keys| - |path|) && FoldEvaluates(env, ts, and)
    decreases |env.sets.Keys| - |path|, 0, ts, 0
  {
    if ts != [] {
      CanParts(env, f0, path, ts[1..], and);
      if Symbolic(env, ts[0]) { CanPart(env, f0, path, ts[0]); }
      FoldCons(env, ts, and);
    }
  }

  lemma {:induction false} FoldCons(env: Env, ts: seq<Filter>, and: bool)
    requires env.Valid() && ts != [] && (forall t :: t in ts ==> WellFormed(t)) && FoldEvaluates(env, ts[1..], and)
    requires !Symbolic(env, ts[0]) ==> !Blocked(env, ts[0])
    ensures FoldEvaluates(env, ts, and)
  {
    var all, rest := Enumerable(env, ts), Enumerable(env, ts[1..]);
    EnumerableFormed(env, ts);
    if Symbolic(env, ts[0]) {
      assert all == rest;
    } else {
      assert all == [ts[0]] + rest;
      if Blocked(env, Folded(all, and)) {
        var i := BlockedByTerm(env, Folded(all, and));
        if i > 0 { BlockedTerm(env, Folded(rest, and), i - 1); }
      }
    }
  }

  lemma {:induction false} EnumerableFormed(env: Env, ts: seq<Filter>)
    requires forall t :: t in ts ==> WellFormed(t)
    ensures forall t :: t in Enumerable(env, ts) ==> WellFormed(t)
    decreases |ts|
  {
    if ts != [] { EnumerableFormed(env, ts[1..]); }
  }

  lemma {:induction false} SymbolicSet(env: Env, f: Filter)
    requires f.FFilterSet? && Symbolic(env, f)
    ensures f.name in env.sets
  {
    var path :| SymbolAt(env, f, path);
    assert path != [] && path[0] == f.name;
  }

  lemma {:induction false} OnlyGroupsSymbolic(env: Env, f: Filter)
    requires f.FAny? || f.FPrefixList? || f.FSource? || f.FAnySet?
    ensures !Symbolic(env, f)
  {
    forall path ensures !SymbolAt(env, f, path) {}
  }

  /** A filter has a normal form exactly when nothing it comes to stands in the way. */
  lemma {:induction false} NormalizableIff(env: Env, f: Filter)
    requires env.Valid() && WellFormed(f)
    ensures Normalizable(env, f) <==> !Obstructed(env, f)
  {
    if Obstructed(env, f) {
      var path :| ObstacleAt(env, f, path) || (Follows(env, f, path) && Repeats(path));
      forall fuel: nat ensures !CanAt(env, f, fuel) {
        if Repeats(path) {
          RepeatCannot(env, f, path, fuel);
        } else if CanAt(env, f, fuel) {
          CanAlong(env, f, fuel, path);
          CanHere(env, EndOf(env, f, path), fuel - |path|);
        }
      }
    } else {
      CanFrom(env, f, []);
    }
  }
}
