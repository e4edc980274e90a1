/** The loop over passes: it stops, and its answer is the filter's meaning under the least solution of
    the filter-set equations (resolve/expand_more.go:237-275). */
module FilterRuns {
  import opened Prefixes
  import opened RangeIndex
  import opened Filters
  import opened FilterPasses
  import opened FilterFixpoint

  // ---- every pass stays below every closed valuation ----

  ghost predicate UnderSigma(m: Values, sigma: Valuation) {
    forall n, q: Prefix :: n in m && q.Valid() && RangesDenote(m[n], q) ==> sigma(n, q)
  }

  ghost predicate ValueUnder(env: Env, f: Filter, v: Ranges, sigma: Valuation, tau: Tests)
    requires env.Valid()
  {
    forall q: Prefix :: q.Valid() && RangesDenote(v, q) ==> Meaning(env, f, sigma, tau, q)
  }

  lemma SetUnder(env: Env, n: string, op: RangeOperator, v: Ranges, sigma: Valuation, tau: Tests)
    requires env.Valid() && n in env.sets && Good(env.afi, v)
    requires forall q: Prefix :: q.Valid() && RangesDenote(v, q) ==> sigma(n, q)
    ensures ValueUnder(env, FFilterSet(n, op), if op.IsZero() then v else PutOps(env.afi, v, op), sigma, tau)
  {
    var w := if op.IsZero() then v else PutOps(env.afi, v, op);
    forall q: Prefix | q.Valid() && RangesDenote(w, q) ensures SetYields(sigma, n, op, q) {
      if op.IsZero() {
        assert op.Yields(q, q);
      } else {
        PutOpsDenote(env.afi, v, op, q);
        var p: Prefix :| RangesDenote(v, p) && op.Yields(p, q);
        assert sigma(n, p);
      }
    }
  }

  lemma {:induction false} EvalUnder(env: Env, f: Filter, approx: Values, active: set<string>, memo: Values,
                                     sigma: Valuation, tau: Tests)
    requires env.Valid() && WellFormed(f) && GoodValues(env, approx) && GoodValues(env, memo) && active <= env.sets.Keys
    requires Closed(env, sigma, tau) && UnderSigma(approx, sigma) && UnderSigma(memo, sigma)
    requires Eval(env, f, approx, active, memo).value.Some?
    ensures var p := Eval(env, f, approx, active, memo);
            UnderSigma(p.memo, sigma) && ValueUnder(env, f, p.value.value, sigma, tau)
    decreases env.sets.Keys - active, Size(f), 1
  {
    match f
    case FFilterSet(n, op) =>
      SetValueUnder(env, n, approx, active, memo, sigma, tau);
      var p := SetValue(env, n, approx, active, memo);
      if n in env.sets { SetUnder(env, n, op, p.value.value, sigma, tau); }
    case FOr(ts) => GroupUnder(env, f, approx, active, memo, sigma, tau);
    case FAnd(ts) => GroupUnder(env, f, approx, active, memo, sigma, tau);
    case _ => LeafDenotes(env, f, approx, active, memo, sigma, tau);
  }

  lemma {:induction false} GroupUnder(env: Env, f: Filter, approx: Values, active: set<string>, memo: Values,
                                      sigma: Valuation, tau: Tests)
    requires env.Valid() && WellFormed(f) && GoodValues(env, approx) && GoodValues(env, memo) && active <= env.sets.Keys
    requires f.FOr? || f.FAnd?
    requires Closed(env, sigma, tau) && UnderSigma(approx, sigma) && UnderSigma(memo, sigma)
    requires Eval(env, f, approx, active, memo).value.Some?
    ensures var p := Eval(env, f, approx, active, memo);
            UnderSigma(p.memo, sigma) && ValueUnder(env, f, p.value.value, sigma, tau)
    decreases env.sets.Keys - active, Size(f), 0
  {
    EvalAllUnder(env, f.terms, approx, active, memo, sigma, tau);
    var vs := EvalAll(env, f.terms, approx, active, memo).values.value;
    forall q: Prefix | q.Valid() && RangesDenote(if f.FOr? then UnionOf(vs) else MeetOf(vs), q)
      ensures Meaning(env, f, sigma, tau, q)
    {
      UnionOfDenotes(vs, q);
      MeetOfDenotes(vs, q);
    }
  }

  lemma {:induction false} EvalAllUnder(env: Env, ts: seq<Filter>, approx: Values, active: set<string>, memo: Values,
                                        sigma: Valuation, tau: Tests)
    requires env.Valid() && (forall t :: t in ts ==> WellFormed(t)) && GoodValues(env, approx) && GoodValues(env, memo)
    requires active <= env.sets.Keys
    requires Closed(env, sigma, tau) && UnderSigma(approx, sigma) && UnderSigma(memo, sigma)
    requires EvalAll(env, ts, approx, active, memo).values.Some?
    ensures var p := EvalAll(env, ts, approx, active, memo); |p.values.value| == |ts| && UnderSigma(p.memo, sigma)
    ensures var vs := EvalAll(env, ts, approx, active, memo).values.value;
            forall q: Prefix :: q.Valid() && SomeDenotes(vs, q) ==> SomeMeaning(env, ts, sigma, tau, q)
    ensures var vs := EvalAll(env, ts, approx, active, memo).values.value;
            forall q: Prefix :: q.Valid() && EachDenotes(vs, q) ==> EachMeaning(env, ts, sigma, tau, q)
    decreases env.sets.Keys - active, SizeAll(ts)
  {
    if ts != [] {
      var p := Eval(env, ts[0], approx, active, memo);
      var rest := EvalAll(env, ts[1..], approx, active, p.memo);
      EvalUnder(env, ts[0], approx, active, memo, sigma, tau);
      EvalAllUnder(env, ts[1..], approx, active, p.memo, sigma, tau);
      var vs := EvalAll(env, ts, approx, active, memo).values.value;
      assert vs[0] == p.value.value && vs[1..] == rest.values.value;
    }
  }

  lemma {:induction false} SetValueUnder(env: Env, n: string, approx: Values, active: set<string>, memo: Values,
                                         sigma: Valuation, tau: Tests)
    requires env.Valid() && GoodValues(env, approx) && GoodValues(env, memo) && active <= env.sets.Keys
    requires Closed(env, sigma, tau) && UnderSigma(approx, sigma) && UnderSigma(memo, sigma)
    requires SetValue(env, n, approx, active, memo).value.Some?
    ensures var p := SetValue(env, n, approx, active, memo);
            UnderSigma(p.memo, sigma) && forall q: Prefix :: q.Valid() && RangesDenote(p.value.value, q) ==> sigma(n, q)
    decreases env.sets.Keys - active, 0
  {
    if n !in active && n !in memo && n in env.sets {
      EvalUnder(env, env.sets[n], approx, active + {n}, memo, sigma, tau);
    }
  }

  // ---- finitely many values ----

  /** The prefixes that ranges of f's own lists and sources have. */
  function PrefixesIn(env: Env, f: Filter): set<Prefix> {
    match f
    case FPrefixList(rs) => set r | r in rs :: r.prefix
    case FSource(k, _) => if k in env.sources then set r | r in env.sources[k] :: r.prefix else {}
    case FAny => {Full(V4).prefix, Full(V6).prefix}
    case FAnySet(_) => {Full(V4).prefix, Full(V6).prefix}
    case FOr(ts) => PrefixesInAll(env, ts)
    case FAnd(ts) => PrefixesInAll(env, ts)
    case _ => {}
  }

  function PrefixesInAll(env: Env, ts: seq<Filter>): set<Prefix> {
    if ts == [] then {} else PrefixesIn(env, ts[0]) + PrefixesInAll(env, ts[1..])
  }

  predicate Based(v: Ranges, ps: set<Prefix>) { forall r :: r in v ==> r.prefix in ps }

  predicate AllBased(env: Env, m: Values, ps: set<Prefix>) {
    (forall n :: n in m ==> Based(m[n], ps)) && forall n :: n in env.sets ==> PrefixesIn(env, env.sets[n]) <= ps
  }

  lemma {:induction false} MeetFromBased(acc: Ranges, vs: seq<Ranges>, ps: set<Prefix>)
    requires Good(AfiAny, acc) && (forall v :: v in vs ==> Good(AfiAny, v))
    requires Based(acc, ps) && forall v :: v in vs ==> Based(v, ps)
    ensures Based(MeetFrom(acc, vs), ps)
    decreases |vs|
  {
    if vs != [] {
      assert vs[0] in vs;
      MeetFromBased(PairwiseIntersections(acc, vs[0]), vs[1..], ps);
    }
  }

  lemma {:induction false} UnionOfBased(vs: seq<Ranges>, ps: set<Prefix>)
    requires forall v :: v in vs ==> Based(v, ps)
    ensures Based(UnionOf(vs), ps)
  {
    if vs != [] {
      assert vs[0] in vs;
      UnionOfBased(vs[1..], ps);
    }
  }

  lemma {:induction false} EvalBased(env: Env, f: Filter, approx: Values, active: set<string>, memo: Values,
                                     ps: set<Prefix>)
    requires env.Valid() && WellFormed(f) && GoodValues(env, approx) && GoodValues(env, memo)
    requires AllBased(env, approx, ps) && AllBased(env, memo, ps) && PrefixesIn(env, f) <= ps
    ensures var p := Eval(env, f, approx, active, memo);
            AllBased(env, p.memo, ps) && (p.value.Some? ==> Based(p.value.value, ps))
    decreases env.sets.Keys - active, Size(f)
  {
    match f
    case FFilterSet(n, op) => SetValueBased(env, n, approx, active, memo, ps);
    case FOr(ts) =>
      EvalAllBased(env, ts, approx, active, memo, ps);
      var vs := EvalAll(env, ts, approx, active, memo).values;
      if vs.Some? { UnionOfBased(vs.value, ps); }
    case FAnd(ts) =>
      EvalAllBased(env, ts, approx, active, memo, ps);
      var vs := EvalAll(env, ts, approx, active, memo).values;
      if vs.Some? && vs.value != [] {
        assert vs.value[0] in vs.value;
        MeetFromBased(vs.value[0], vs.value[1..], ps);
      }
    case _ =>
  }

  lemma {:induction false} EvalAllBased(env: Env, ts: seq<Filter>, approx: Values, active: set<string>, memo: Values,
                                        ps: set<Prefix>)
    requires env.Valid() && (forall t :: t in ts ==> WellFormed(t)) && GoodValues(env, approx) && GoodValues(env, memo)
    requires AllBased(env, approx, ps) && AllBased(env, memo, ps) && PrefixesInAll(env, ts) <= ps
    ensures var p := EvalAll(env, ts, approx, active, memo);
            AllBased(env, p.memo, ps) && (p.values.Some? ==> forall v :: v in p.values.value ==> Based(v, ps))
    decreases env.sets.Keys - active, SizeAll(ts)
  {
    if ts != [] {
      EvalBased(env, ts[0], approx, active, memo, ps);
      EvalAllBased(env, ts[1..], approx, active, Eval(env, ts[0], approx, active, memo).memo, ps);
    }
  }

  lemma {:induction false} SetValueBased(env: Env, n: string, approx: Values, active: set<string>, memo: Values,
                                         ps: set<Prefix>)
    requires env.Valid() && GoodValues(env, approx) && GoodValues(env, memo)
    requires AllBased(env, approx, ps) && AllBased(env, memo, ps)
    ensures var p := SetValue(env, n, approx, active, memo);
            AllBased(env, p.memo, ps) && (p.value.Some? ==> Based(p.value.value, ps))
    decreases env.sets.Keys - active, 0
  {
    if n !in active && n !in memo && n in env.sets {
      EvalBased(env, env.sets[n], approx, active + {n}, memo, ps);
    }
  }

  /** The ranges with these prefixes: finitely many. */
  function RangesAt(ps: set<Prefix>): set<PrefixRange> {
    set p, l, h | p in ps && l in UpTo(128) && h in UpTo(128) :: PrefixRange(p, l, h)
  }

  function UpTo(n: nat): (s: set<nat>)
    ensures forall x: nat :: x in s <==> x <= n
  {
    if n == 0 then {0} else UpTo(n - 1) + {n}
  }

  lemma BasedWithin(v: Ranges, ps: set<Prefix>)
    requires Good(AfiAny, v) && Based(v, ps)
    ensures v <= RangesAt(ps)
  {
    forall r | r in v ensures r in RangesAt(ps) {
      assert r == PrefixRange(r.prefix, r.lo, r.hi) && r.lo in UpTo(128) && r.hi in UpTo(128);
    }
  }

  // ---- the values of the last pass are the least solution ----

  ghost predicate Agree(env: Env, ns: set<string>, a: Valuation, b: Valuation) {
    forall n, p: Prefix :: n in ns && n in env.sets && p.Valid() ==> (a(n, p) <==> b(n, p))
  }

  lemma {:induction false} MeaningAgrees(env: Env, f: Filter, a: Valuation, b: Valuation, tau: Tests, q: Prefix)
    requires env.Valid() && q.Valid() && Agree(env, Refs(f), a, b)
    ensures Meaning(env, f, a, tau, q) <==> Meaning(env, f, b, tau, q)
    decreases f, 1
  {
    match f
    case FFilterSet(n, op) =>
      if n in env.sets {
        forall p: Prefix | op.Yields(p, q) ensures a(n, p) <==> b(n, p) { assert p.Valid(); }
      }
    case FOr(ts) => MeaningsAgree(env, ts, a, b, tau, q);
    case FAnd(ts) => MeaningsAgree(env, ts, a, b, tau, q);
    case FNot(g) => MeaningAgrees(env, g, a, b, tau, q);
    case _ =>
  }

  lemma {:induction false} MeaningsAgree(env: Env, ts: seq<Filter>, a: Valuation, b: Valuation, tau: Tests, q: Prefix)
    requires env.Valid() && q.Valid() && Agree(env, RefsAll(ts), a, b)
    ensures SomeMeaning(env, ts, a, tau, q) <==> SomeMeaning(env, ts, b, tau, q)
    ensures EachMeaning(env, ts, a, tau, q) <==> EachMeaning(env, ts, b, tau, q)
    decreases ts, 0
  {
    if ts != [] {
      MeaningAgrees(env, ts[0], a, b, tau, q);
      MeaningsAgree(env, ts[1..], a, b, tau, q);
    }
  }

  ghost function LfpOf(env: Env, tau: Tests): Valuation
    requires env.Valid()
  {
    (n: string, q: Prefix) => Lfp(env, tau, n, q)
  }

  /** Values that solve their equations, name only sets among them, and are within every closed
      valuation, are the least solution on the sets they cover. */
  lemma SolutionIsLfp(env: Env, m: Values, tau: Tests)
    requires env.Valid() && m.Keys <= env.sets.Keys && Grew(env, map[], m, {}) && Solved(env, map[], m, m, tau)
    requires forall sigma: Valuation :: Closed(env, sigma, tau) ==> UnderSigma(m, sigma)
    ensures Agree(env, m.Keys, Sigma(m), LfpOf(env, tau))
  {
    var top: Valuation := (n: string, q: Prefix) => n in m ==> RangesDenote(m[n], q);
    forall n, q: Prefix | n in env.sets && q.Valid() && Meaning(env, env.sets[n], top, tau, q) ensures top(n, q) {
      if n in m {
        assert Held(env, Refs(env.sets[n]), m, {});
        MeaningAgrees(env, env.sets[n], top, Sigma(m), tau, q);
        assert Denotes(env, env.sets[n], m[n], Sigma(m), tau);
      }
    }
    assert Closed(env, top, tau);
    forall n, p: Prefix | n in m && p.Valid() ensures Sigma(m)(n, p) <==> LfpOf(env, tau)(n, p) {
      if Lfp(env, tau, n, p) { assert top(n, p); }
      if RangesDenote(m[n], p) {
        forall sigma: Valuation | Closed(env, sigma, tau) ensures sigma(n, p) { assert UnderSigma(m, sigma); }
      }
    }
  }

  /** v denotes exactly what f means under the least solution. */
  ghost predicate DenotesMeaning(env: Env, f: Filter, v: Ranges)
    requires env.Valid()
  {
    forall tau: Tests, q: Prefix :: q.Valid() ==> (RangesDenote(v, q) <==> Meaning(env, f, LfpOf(env, tau), tau, q))
  }

  /** The pass before is below every closed valuation. */
  ghost predicate UnderAll(env: Env, m: Values)
    requires env.Valid()
  {
    forall sigma: Valuation, tau: Tests :: Closed(env, sigma, tau) ==> UnderSigma(m, sigma)
  }

  /** When a pass takes no back-edge, or agrees with the pass before, its answer is the filter's meaning. */
  lemma LastPassIsMeaning(env: Env, f: Filter, approx: Values)
    requires env.Valid() && WellFormed(f) && GoodValues(env, approx) && UnderAll(env, approx)
    requires var p := Eval(env, f, approx, {}, map[]); p.value.Some? && (p.cyclic ==> approx == p.memo)
    ensures DenotesMeaning(env, f, Eval(env, f, approx, {}, map[]).value.value)
  {
    var p := Eval(env, f, approx, {}, map[]);
    EvalGrows(env, f, approx, {}, map[]);
    forall tau: Tests, q: Prefix | q.Valid()
      ensures RangesDenote(p.value.value, q) <==> Meaning(env, f, LfpOf(env, tau), tau, q)
    {
      PassUnderAll(env, f, approx, tau);
      EvalSolves(env, f, approx, {}, map[], p.memo, tau);
      SolutionIsLfp(env, p.memo, tau);
      MeaningAgrees(env, f, Sigma(p.memo), LfpOf(env, tau), tau, q);
    }
  }

  lemma PassUnderAll(env: Env, f: Filter, approx: Values, tau: Tests)
    requires env.Valid() && WellFormed(f) && GoodValues(env, approx) && UnderAll(env, approx)
    requires Eval(env, f, approx, {}, map[]).value.Some?
    ensures forall sigma: Valuation :: Closed(env, sigma, tau) ==>
            UnderSigma(Eval(env, f, approx, {}, map[]).memo, sigma)
  {
    forall sigma: Valuation | Closed(env, sigma, tau) ensures UnderSigma(Eval(env, f, approx, {}, map[]).memo, sigma) {
      EvalUnder(env, f, approx, {}, map[], sigma, tau);
    }
  }

  // ---- the answer itself ----

  /** One pass over a filter, as a function of the pass before's filter-set values. */
  type PassFn = Values -> Pass

  ghost function PassOf(env: Env, f: Filter): PassFn
    requires env.Valid() && WellFormed(f)
  {
    (m: Values) => if GoodValues(env, m) then Eval(env, f, m, {}, map[]) else Pass(None, m, false)
  }

  /** The filter-set values n passes leave. */
  ghost function Approx(pass: PassFn, n: nat): Values { if n == 0 then map[] else pass(Approx(pass, n - 1)).memo }

  /** The pass after n is the last: it fails, takes no back-edge, or agrees with the one before. */
  ghost predicate Stops(pass: PassFn, n: nat) { LastPass(pass, Approx(pass, n)) }

  predicate LastPass(pass: PassFn, m: Values) { pass(m).value.None? || !pass(m).cyclic || pass(m).memo == m }

  ghost predicate GoesOn(pass: PassFn, n: nat) { forall m: nat :: m < n ==> !Stops(pass, m) }

  /** v is the value of the last pass. */
  ghost predicate Ends(pass: PassFn, v: Option<Ranges>) {
    exists n: nat :: GoesOn(pass, n) && Stops(pass, n) && v == pass(Approx(pass, n)).value
  }

  /** v is what evaluating f answers. */
  ghost predicate Answers(env: Env, f: Filter, v: Option<Ranges>)
    requires env.Valid() && WellFormed(f)
  {
    Ends(PassOf(env, f), v)
  }

  lemma {:induction false} GoesOnMore(pass: PassFn, n: nat)
    requires GoesOn(pass, n) && !LastPass(pass, Approx(pass, n))
    ensures GoesOn(pass, n + 1) && Approx(pass, n + 1) == pass(Approx(pass, n)).memo
  {
  }

  /** Evaluation has one answer at most. */
  lemma {:induction false} OneAnswer(env: Env, f: Filter, v: Option<Ranges>, w: Option<Ranges>)
    requires env.Valid() && WellFormed(f) && Answers(env, f, v) && Answers(env, f, w)
    ensures v == w
  {
    var pass := PassOf(env, f);
    var n: nat :| GoesOn(pass, n) && Stops(pass, n) && v == pass(Approx(pass, n)).value;
    var m: nat :| GoesOn(pass, m) && Stops(pass, m) && w == pass(Approx(pass, m)).value;
    assert n == m;
  }
}
