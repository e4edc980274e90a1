/** Which filters EvalFilter answers (resolve/expand_more.go:332-525): those that come to no term without a
    finite value, however they come to it. */
module FilterBlocks {
  import opened Prefixes
  import opened Filters
  import opened FilterPasses
  import opened FilterFixpoint

  /** f itself holds a term with no finite value: a NOT, a test, a source that fails, or AS-ANY or RS-ANY where
      these are not every route. */
  predicate HasBlock(env: Env, f: Filter) {
    match f
    case FNot(_) => true
    case FTest(_, _) => true
    case FSource(k, _) => k in env.failing
    case FAnySet(_) => !env.anyAll
    case FOr(ts) => AnyHasBlock(env, ts)
    case FAnd(ts) => AnyHasBlock(env, ts)
    case _ => false
  }

  predicate AnyHasBlock(env: Env, ts: seq<Filter>) { ts != [] && (HasBlock(env, ts[0]) || AnyHasBlock(env, ts[1..])) }

  /** f comes to such a term by way of the filter-sets at path. */
  predicate BlockedAt(env: Env, f: Filter, path: seq<string>)
    decreases |path|
  {
    if path == [] then HasBlock(env, f)
    else path[0] in Refs(f) && path[0] in env.sets && BlockedAt(env, env.sets[path[0]], path[1..])
  }

  ghost predicate Blocked(env: Env, f: Filter) { exists path :: BlockedAt(env, f, path) }

  // ---- what fails is blocked ----

  lemma {:induction false} BlockedSet(env: Env, f: Filter, n: string)
    requires n in Refs(f) && n in env.sets && Blocked(env, env.sets[n])
    ensures Blocked(env, f)
  {
    var path :| BlockedAt(env, env.sets[n], path);
    assert ([n] + path)[1..] == path;
    assert BlockedAt(env, f, [n] + path);
  }

  /** What blocks a term of a group blocks the group. */
  lemma {:induction false} BlockedTerm(env: Env, f: Filter, i: nat)
    requires (f.FOr? || f.FAnd?) && i < |f.terms| && Blocked(env, f.terms[i])
    ensures Blocked(env, f)
  {
    var path :| BlockedAt(env, f.terms[i], path);
    TermBlocks(env, f.terms, i);
    TermRefs(f.terms, i);
    assert BlockedAt(env, f, path);
  }

  /** And a group is blocked by one of its terms. */
  lemma {:induction false} BlockedByTerm(env: Env, f: Filter) returns (i: nat)
    requires (f.FOr? || f.FAnd?) && Blocked(env, f)
    ensures i < |f.terms| && Blocked(env, f.terms[i])
  {
    var path :| BlockedAt(env, f, path);
    if path == [] {
      i := BlockedHere(env, f.terms);
    } else {
      i := NamedHere(f.terms, path[0]);
    }
    assert BlockedAt(env, f.terms[i], path);
  }

  lemma {:induction false} NoTermNoBlock(env: Env, f: Filter)
    requires (f.FOr? || f.FAnd?) && f.terms == []
    ensures !Blocked(env, f)
  {
    if Blocked(env, f) { var i := BlockedByTerm(env, f); }
  }

  lemma {:induction false} BlockedHere(env: Env, ts: seq<Filter>) returns (i: nat)
    requires AnyHasBlock(env, ts)
    ensures i < |ts| && HasBlock(env, ts[i])
    decreases |ts|
  {
    if HasBlock(env, ts[0]) { return 0; }
    i := BlockedHere(env, ts[1..]);
    i := i + 1;
  }

  lemma {:induction false} NamedHere(ts: seq<Filter>, n: string) returns (i: nat)
    requires n in RefsAll(ts)
    ensures i < |ts| && n in Refs(ts[i])
    decreases |ts|
  {
    if n in Refs(ts[0]) { return 0; }
    i := NamedHere(ts[1..], n);
    i := i + 1;
  }

  lemma {:induction false} TermBlocks(env: Env, ts: seq<Filter>, i: nat)
    requires i < |ts|
    ensures HasBlock(env, ts[i]) ==> AnyHasBlock(env, ts)
    decreases i
  {
    if i > 0 { TermBlocks(env, ts[1..], i - 1); }
  }

  lemma {:induction false} TermRefs(ts: seq<Filter>, i: nat)
    requires i < |ts|
    ensures Refs(ts[i]) <= RefsAll(ts)
    decreases i
  {
    if i > 0 { TermRefs(ts[1..], i - 1); }
  }

  lemma {:induction false} FailsBlocked(env: Env, f: Filter, approx: Values, active: set<string>, memo: Values)
    requires env.Valid() && WellFormed(f) && GoodValues(env, approx) && GoodValues(env, memo)
    requires Eval(env, f, approx, active, memo).value.None?
    ensures Blocked(env, f)
    decreases env.sets.Keys - active, Size(f)
  {
    match f
    case FFilterSet(n, _) =>
      FailsBlocked(env, env.sets[n], approx, active + {n}, memo);
      BlockedSet(env, f, n);
    case FOr(ts) =>
      var i := TermFails(env, ts, approx, active, memo);
      BlockedTerm(env, f, i);
    case FAnd(ts) =>
      var i := TermFails(env, ts, approx, active, memo);
      BlockedTerm(env, f, i);
    case FSource(_, _) => assert BlockedAt(env, f, []);
    case FAnySet(_) => assert BlockedAt(env, f, []);
    case FNot(_) => assert BlockedAt(env, f, []);
    case FTest(_, _) => assert BlockedAt(env, f, []);
  }

  lemma {:induction false} TermFails(env: Env, ts: seq<Filter>, approx: Values, active: set<string>, memo: Values)
    returns (i: nat)
    requires env.Valid() && (forall t :: t in ts ==> WellFormed(t)) && GoodValues(env, approx) && GoodValues(env, memo)
    requires EvalAll(env, ts, approx, active, memo).values.None?
    ensures i < |ts| && Blocked(env, ts[i])
    decreases env.sets.Keys - active, SizeAll(ts)
  {
    var p := Eval(env, ts[0], approx, active, memo);
    if p.value.None? {
      FailsBlocked(env, ts[0], approx, active, memo);
      i := 0;
    } else {
      i := TermFails(env, ts[1..], approx, active, p.memo);
      i := i + 1;
    }
  }

  // ---- what succeeds is not ----

  /** No filter-set of m holds a block itself. */
  predicate NoBlocks(env: Env, m: Values)
    requires m.Keys <= env.sets.Keys
  {
    forall n :: n in m ==> !HasBlock(env, env.sets[n])
  }

  lemma {:induction false} EvalNoBlocks(env: Env, f: Filter, approx: Values, active: set<string>, memo: Values)
    requires env.Valid() && WellFormed(f) && GoodValues(env, approx) && GoodValues(env, memo) && NoBlocks(env, memo)
    requires Eval(env, f, approx, active, memo).value.Some?
    ensures !HasBlock(env, f) && NoBlocks(env, Eval(env, f, approx, active, memo).memo)
    decreases env.sets.Keys - active, Size(f)
  {
    match f
    case FFilterSet(n, _) =>
      if n !in active && n !in memo && n in env.sets { EvalNoBlocks(env, env.sets[n], approx, active + {n}, memo); }
    case FOr(ts) => EvalAllNoBlocks(env, ts, approx, active, memo);
    case FAnd(ts) => EvalAllNoBlocks(env, ts, approx, active, memo);
    case _ =>
  }

  lemma {:induction false} EvalAllNoBlocks(env: Env, ts: seq<Filter>, approx: Values, active: set<string>, memo: Values)
    requires env.Valid() && (forall t :: t in ts ==> WellFormed(t)) && GoodValues(env, approx) && GoodValues(env, memo)
    requires NoBlocks(env, memo)
    requires EvalAll(env, ts, approx, active, memo).values.Some?
    ensures !AnyHasBlock(env, ts) && NoBlocks(env, EvalAll(env, ts, approx, active, memo).memo)
    decreases env.sets.Keys - active, SizeAll(ts)
  {
    if ts != [] {
      EvalNoBlocks(env, ts[0], approx, active, memo);
      EvalAllNoBlocks(env, ts[1..], approx, active, Eval(env, ts[0], approx, active, memo).memo);
    }
  }

  lemma {:induction false} NamesNoBlock(env: Env, f: Filter, m: Values, path: seq<string>)
    requires m.Keys <= env.sets.Keys && NoBlocks(env, m) && Grew(env, map[], m, {}) && !HasBlock(env, f)
    requires Held(env, Refs(f), m, {})
    ensures !BlockedAt(env, f, path)
    decreases |path|
  {
    if path != [] && path[0] in Refs(f) && path[0] in env.sets { NamesNoBlock(env, env.sets[path[0]], m, path[1..]); }
  }

  /** A filter has a value exactly when no term it comes to is without one, cycles of filter-sets or not. */
  lemma {:induction false} EvaluatesIff(env: Env, f: Filter)
    requires env.Valid() && WellFormed(f)
    ensures Eval(env, f, map[], {}, map[]).value.Some? <==> !Blocked(env, f)
  {
    var p := Eval(env, f, map[], {}, map[]);
    if p.value.None? {
      FailsBlocked(env, f, map[], {}, map[]);
    } else {
      EvalNoBlocks(env, f, map[], {}, map[]);
      EvalGrows(env, f, map[], {}, map[]);
      forall path ensures !BlockedAt(env, f, path) { NamesNoBlock(env, f, p.memo, path); }
    }
  }
}
