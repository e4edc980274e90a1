/** Which filters can be normalized: the errors of norm, literal and filterSet (resolve/normalize.go:
    240-489) as a condition on the filter and the registry. */
module NormalizeErrors {
  import opened Prefixes
  import opened RangeIndex
  import opened Filters
  import opened FilterPasses
  import opened FilterBlocks
  import opened FilterRuns
  import opened Unfolding

  /** No source an evaluation of f reaches fails, and no term of it is without a finite value. */
  ghost predicate Evaluates(env: Env, f: Filter) { WellFormed(f) && !Blocked(env, f) }

  /** The enumerable terms of a group as one filter. */
  function Folded(enum_: seq<Filter>, and: bool): Filter { if and then FAnd(enum_) else FOr(enum_) }

  ghost function Enumerable(env: Env, ts: seq<Filter>): seq<Filter> {
    if ts == [] then [] else (if Symbolic(env, ts[0]) then [] else [ts[0]]) + Enumerable(env, ts[1..])
  }

  ghost predicate FoldEvaluates(env: Env, ts: seq<Filter>, and: bool)
    requires env.Valid()
  {
    var e := Enumerable(env, ts);
    e != [] ==> Evaluates(env, Folded(e, and))
  }

  /** f has a normal form, inlining symbolic filter-sets at most fuel deep. */
  ghost predicate CanAt(env: Env, f: Filter, fuel: nat)
    requires env.Valid()
    decreases fuel, f, 1
  {
    if !Symbolic(env, f) then Evaluates(env, f)
    else match f
      case FNot(g) => CanAt(env, g, fuel)
      case FOr(ts) => EachCanAt(env, ts, fuel) && FoldEvaluates(env, ts, false)
      case FAnd(ts) => EachCanAt(env, ts, fuel) && FoldEvaluates(env, ts, true)
      case FTest(_, usable) => usable
      case FFilterSet(n, op) => fuel > 0 && op.IsZero() && n in env.sets && CanAt(env, env.sets[n], fuel - 1)
      case _ => false
  }

  ghost predicate EachCanAt(env: Env, ts: seq<Filter>, fuel: nat)
    requires env.Valid()
    decreases fuel, ts, 0
  {
    ts == [] || ((Symbolic(env, ts[0]) ==> CanAt(env, ts[0], fuel)) && EachCanAt(env, ts[1..], fuel))
  }

  ghost predicate Normalizable(env: Env, f: Filter)
    requires env.Valid()
  {
    exists fuel: nat :: CanAt(env, f, fuel)
  }

  lemma {:induction false} CanDeeper(env: Env, f: Filter, fuel: nat, more: nat)
    requires env.Valid() && fuel <= more && CanAt(env, f, fuel)
    ensures CanAt(env, f, more)
    decreases fuel, f, 1
  {
    if Symbolic(env, f) {
      match f
      case FNot(g) => CanDeeper(env, g, fuel, more);
      case FOr(ts) => EachCanDeeper(env, ts, fuel, more);
      case FAnd(ts) => EachCanDeeper(env, ts, fuel, more);
      case FFilterSet(n, _) => CanDeeper(env, env.sets[n], fuel - 1, more - 1);
      case FTest(_, _) =>
    }
  }

  lemma {:induction false} EachCanDeeper(env: Env, ts: seq<Filter>, fuel: nat, more: nat)
    requires env.Valid() && fuel <= more && EachCanAt(env, ts, fuel)
    ensures EachCanAt(env, ts, more)
    decreases fuel, ts, 0
  {
    if ts != [] {
      if Symbolic(env, ts[0]) { CanDeeper(env, ts[0], fuel, more); }
      EachCanDeeper(env, ts[1..], fuel, more);
    }
  }

  lemma {:induction false} EachCanAppend(env: Env, ts: seq<Filter>, t: Filter, fuel: nat)
    requires env.Valid()
    ensures EachCanAt(env, ts + [t], fuel) <==> EachCanAt(env, ts, fuel) && (Symbolic(env, t) ==> CanAt(env, t, fuel))
    decreases |ts|
  {
    if ts == [] {
      assert (ts + [t])[1..] == [];
    } else {
      EachCanAppend(env, ts[1..], t, fuel);
      assert (ts + [t])[1..] == ts[1..] + [t];
    }
  }

  lemma {:induction false} EnumerableAppend(env: Env, ts: seq<Filter>, t: Filter)
    ensures Enumerable(env, ts + [t]) == Enumerable(env, ts) + if Symbolic(env, t) then [] else [t]
    decreases |ts|
  {
    if ts == [] {
      assert (ts + [t])[1..] == [];
    } else {
      EnumerableAppend(env, ts[1..], t);
      assert (ts + [t])[1..] == ts[1..] + [t];
    }
  }

  lemma {:induction false} EachCanTerm(env: Env, ts: seq<Filter>, i: nat, fuel: nat)
    requires env.Valid() && i < |ts| && EachCanAt(env, ts, fuel) && Symbolic(env, ts[i])
    ensures CanAt(env, ts[i], fuel)
    decreases i
  {
    if i > 0 { EachCanTerm(env, ts[1..], i - 1, fuel); }
  }

  /** Normalizing any filter-set of ns comes to normalizing f. */
  ghost predicate Leads(env: Env, ns: set<string>, f: Filter)
    requires env.Valid()
  {
    forall m, k: nat :: m in ns && m in env.sets && CanAt(env, env.sets[m], k) ==> CanAt(env, f, k)
  }

  lemma LeadsTerm(env: Env, ns: set<string>, f: Filter, i: nat)
    requires env.Valid() && (f.FOr? || f.FAnd?) && i < |f.terms| && Symbolic(env, f.terms[i]) && Symbolic(env, f)
    requires Leads(env, ns, f)
    ensures Leads(env, ns, f.terms[i])
  {
    forall m, k: nat | m in ns && m in env.sets && CanAt(env, env.sets[m], k) ensures CanAt(env, f.terms[i], k) {
      assert CanAt(env, f, k);
      EachCanTerm(env, f.terms, i, k);
    }
  }

  lemma LeadsInto(env: Env, ns: set<string>, f: Filter)
    requires env.Valid() && f.FFilterSet? && Symbolic(env, f) && f.name in env.sets && Leads(env, ns, f)
    ensures Leads(env, ns + {f.name}, env.sets[f.name])
  {
    forall m, k: nat | m in ns + {f.name} && m in env.sets &&
      CanAt(env, env.sets[m], k) ensures CanAt(env, env.sets[f.name], k) {
      if m in ns {
        assert CanAt(env, f, k);
        CanDeeper(env, env.sets[f.name], k - 1, k);
      }
    }
  }

  /** A filter-set that leads back to itself has no normal form. */
  lemma {:induction false} CycleCannot(env: Env, ns: set<string>, f: Filter, k: nat)
    requires env.Valid() && f.FFilterSet? && f.name in ns && Symbolic(env, f) && Leads(env, ns, f)
    ensures !CanAt(env, f, k)
    decreases k
  {
    if k > 0 && f.name in env.sets {
      CycleCannot(env, ns, f, k - 1);
      assert !CanAt(env, env.sets[f.name], k - 1);
    }
  }

  /** f's error is its term's. */
  lemma TermCannot(env: Env, f: Filter, i: nat)
    requires env.Valid() && (f.FOr? || f.FAnd?) && i < |f.terms| && Symbolic(env, f.terms[i]) && Symbolic(env, f)
    requires !Normalizable(env, f.terms[i])
    ensures !Normalizable(env, f)
  {
    forall k: nat ensures !CanAt(env, f, k) {
      assert !CanAt(env, f.terms[i], k);
      if EachCanAt(env, f.terms, k) { EachCanTerm(env, f.terms, i, k); }
    }
  }

  // ---- what evaluates has no symbol ----

  /** The registry as EvalFilter reads it, to which AS-ANY and RS-ANY are errors. */
  function Strict(env: Env): Env { env.(anyAll := false) }

  /** A pass that meets no AS-ANY or RS-ANY is the same where these are every route. */
  lemma {:induction false} StrictSame(env: Env, f: Filter, approx: Values, active: set<string>, memo: Values)
    requires env.Valid() && WellFormed(f) && GoodValues(env, approx) && GoodValues(env, memo)
    requires Eval(Strict(env), f, approx, active, memo).value.Some?
    ensures Eval(env, f, approx, active, memo) == Eval(Strict(env), f, approx, active, memo)
    decreases env.sets.Keys - active, Size(f)
  {
    match f
    case FFilterSet(n, _) => StrictSameSet(env, n, approx, active, memo);
    case FOr(ts) => StrictSameAll(env, ts, approx, active, memo);
    case FAnd(ts) => StrictSameAll(env, ts, approx, active, memo);
    case _ =>
  }

  lemma {:induction false} StrictSameAll(env: Env, ts: seq<Filter>, approx: Values, active: set<string>, memo: Values)
    requires env.Valid() && (forall t :: t in ts ==> WellFormed(t)) && GoodValues(env, approx) && GoodValues(env, memo)
    requires EvalAll(Strict(env), ts, approx, active, memo).values.Some?
    ensures EvalAll(env, ts, approx, active, memo) == EvalAll(Strict(env), ts, approx, active, memo)
    decreases env.sets.Keys - active, SizeAll(ts)
  {
    if ts != [] {
      StrictSame(env, ts[0], approx, active, memo);
      StrictSameAll(env, ts[1..], approx, active, Eval(env, ts[0], approx, active, memo).memo);
    }
  }

  lemma {:induction false} StrictSameSet(env: Env, n: string, approx: Values, active: set<string>, memo: Values)
    requires env.Valid() && GoodValues(env, approx) && GoodValues(env, memo)
    requires SetValue(Strict(env), n, approx, active, memo).value.Some?
    ensures SetValue(env, n, approx, active, memo) == SetValue(Strict(env), n, approx, active, memo)
    decreases env.sets.Keys - active, 0
  {
    if n !in active && n !in memo && n in env.sets { StrictSame(env, env.sets[n], approx, active + {n}, memo); }
  }

  /** strict is a pass that, where it succeeds, pass agrees with. */
  ghost predicate Agrees(strict: PassFn, pass: PassFn) {
    forall m: Values :: strict(m).value.Some? ==> pass(m) == strict(m)
  }

  lemma {:induction false} StrictApprox(strict: PassFn, pass: PassFn, n: nat)
    requires Agrees(strict, pass) && GoesOn(strict, n)
    ensures Approx(pass, n) == Approx(strict, n)
    decreases n
  {
    if n > 0 {
      StrictApprox(strict, pass, n - 1);
      assert !Stops(strict, n - 1);
    }
  }

  lemma {:induction false} StrictEnds(strict: PassFn, pass: PassFn, v: Ranges)
    requires Agrees(strict, pass) && Ends(strict, Some(v))
    ensures Ends(pass, Some(v))
  {
    var n: nat :| GoesOn(strict, n) && Stops(strict, n) && Some(v) == strict(Approx(strict, n)).value;
    StrictApprox(strict, pass, n);
    forall m: nat | m < n ensures !Stops(pass, m) {
      assert !Stops(strict, m);
      StrictApprox(strict, pass, m);
    }
    assert GoesOn(pass, n) && Stops(pass, n);
  }

  /** What EvalFilter answers, evaluation answers where AS-ANY and RS-ANY are every route. */
  lemma {:induction false} StrictAnswers(env: Env, f: Filter, v: Ranges)
    requires env.Valid() && WellFormed(f) && Answers(Strict(env), f, Some(v))
    ensures Answers(env, f, Some(v))
  {
    var strict, pass := PassOf(Strict(env), f), PassOf(env, f);
    forall m: Values | strict(m).value.Some? ensures pass(m) == strict(m) { StrictSame(env, f, m, {}, map[]); }
    StrictEnds(strict, pass, v);
  }

  lemma {:induction false} SymbolBlocks(env: Env, f: Filter)
    ensures HasSymbol(f) ==> HasBlock(env, f)
    decreases f, 1
  {
    match f
    case FOr(ts) => AnySymbolBlocks(env, ts);
    case FAnd(ts) => AnySymbolBlocks(env, ts);
    case _ =>
  }

  lemma {:induction false} AnySymbolBlocks(env: Env, ts: seq<Filter>)
    ensures AnyHasSymbol(ts) ==> AnyHasBlock(env, ts)
    decreases ts, 0
  {
    if ts != [] {
      SymbolBlocks(env, ts[0]);
      AnySymbolBlocks(env, ts[1..]);
    }
  }

  lemma {:induction false} SymbolBlocksAt(env: Env, f: Filter, path: seq<string>)
    requires SymbolAt(env, f, path)
    ensures BlockedAt(env, f, path)
    decreases |path|
  {
    if path == [] { SymbolBlocks(env, f); } else { SymbolBlocksAt(env, env.sets[path[0]], path[1..]); }
  }

  /** What evaluates is not symbolic. */
  lemma {:induction false} EvaluatesPlain(env: Env, f: Filter)
    requires env.Valid() && Evaluates(env, f)
    ensures !Symbolic(env, f)
  {
    forall path | SymbolAt(env, f, path) ensures BlockedAt(env, f, path) { SymbolBlocksAt(env, f, path); }
  }

  /** What answers evaluates: a pass that fails is the last. */
  lemma {:induction false} AnswersEvaluates(env: Env, f: Filter, v: Ranges)
    requires env.Valid() && WellFormed(f) && Answers(env, f, Some(v))
    ensures Evaluates(env, f)
  {
    var pass := PassOf(env, f);
    var n: nat :| GoesOn(pass, n) && Stops(pass, n) && Some(v) == pass(Approx(pass, n)).value;
    if n > 0 { assert !Stops(pass, 0); }
    assert pass(map[]) == Eval(env, f, map[], {}, map[]);
    EvaluatesIff(env, f);
  }
}
