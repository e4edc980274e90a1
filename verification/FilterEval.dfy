/** filterEval: a filter evaluated to ranges, its fields changing as it goes
    (resolve/expand_more.go:184-421, 495-525). */
module FilterEval {
  import opened Prefixes
  import opened RangeIndex
  import opened Filters
  import opened FilterPasses
  import opened FilterBlocks
  import opened FilterFixpoint
  import opened FilterRuns

  lemma {:induction false} UnionOfAppend(vs: seq<Ranges>, v: Ranges)
    ensures UnionOf(vs + [v]) == UnionOf(vs) + v
  {
    if vs == [] {
      assert (vs + [v])[1..] == [];
    } else {
      UnionOfAppend(vs[1..], v);
      assert (vs + [v])[1..] == vs[1..] + [v];
    }
  }

  lemma {:induction false} MeetFromAppend(acc: Ranges, vs: seq<Ranges>, v: Ranges)
    requires Good(AfiAny, acc) && Good(AfiAny, v) && forall w :: w in vs ==> Good(AfiAny, w)
    ensures MeetFrom(acc, vs + [v]) == PairwiseIntersections(MeetFrom(acc, vs), v)
    decreases |vs|
  {
    if vs == [] {
      assert (vs + [v])[1..] == [];
    } else {
      assert vs[0] in vs;
      MeetFromAppend(PairwiseIntersections(acc, vs[0]), vs[1..], v);
      assert (vs + [v])[1..] == vs[1..] + [v];
    }
  }

  lemma MeetOfAppend(vs: seq<Ranges>, v: Ranges)
    requires Good(AfiAny, v) && forall w :: w in vs ==> Good(AfiAny, w)
    ensures MeetOf(vs + [v]) == if vs == [] then v else PairwiseIntersections(MeetOf(vs), v)
  {
    if vs == [] {
      assert (vs + [v])[1..] == [];
    } else {
      assert vs[0] in vs;
      MeetFromAppend(vs[0], vs[1..], v);
      assert (vs + [v])[1..] == vs[1..] + [v];
    }
  }

  /** One step of a group's fold: vs are the values before, out their union or intersection. */
  method Fold(and: bool, first: bool, out: Ranges, got: Ranges, ghost vs: seq<Ranges>) returns (out': Ranges)
    requires Good(AfiAny, got) && (forall w :: w in vs ==> Good(AfiAny, w)) && first == (vs == [])
    requires out == if and then MeetOf(vs) else UnionOf(vs)
    ensures out' == if and then MeetOf(vs + [got]) else UnionOf(vs + [got])
  {
    MeetOfAppend(vs, got);
    UnionOfAppend(vs, got);
    if !and { return out + got; }
    if first { return got; }
    out' := IntersectRanges(out, got);
  }

  lemma {:induction false} SizeAt(ts: seq<Filter>, i: nat)
    requires i < |ts|
    ensures Size(ts[i]) < SizeAll(ts)
  {
    if i > 0 { SizeAt(ts[1..], i - 1); }
  }

  /** What is left of a list pass: vs are the values so far, and rest what the terms left will add. */
  ghost predicate Partway(whole: ListPass, vs: seq<Ranges>, rest: ListPass, cyclic: bool) {
    whole.memo == rest.memo && whole.cyclic == (cyclic || rest.cyclic) &&
    whole.values == if rest.values.None? then None else Some(vs + rest.values.value)
  }

  lemma PartwayStep(env: Env, ts: seq<Filter>, approx: Values, active: set<string>, memo: Values, whole: ListPass,
                    vs: seq<Ranges>, cyclic: bool)
    requires env.Valid() && ts != [] && (forall t :: t in ts ==> WellFormed(t)) && GoodValues(env, approx)
    requires GoodValues(env, memo)
    requires Partway(whole, vs, EvalAll(env, ts, approx, active, memo), cyclic)
    ensures var p := Eval(env, ts[0], approx, active, memo);
            if p.value.None? then whole == ListPass(None, p.memo, cyclic || p.cyclic)
            else Partway(whole, vs + [p.value.value], EvalAll(env, ts[1..], approx, active, p.memo), cyclic || p.cyclic)
  {
    var p := Eval(env, ts[0], approx, active, memo);
    if p.value.Some? {
      var rest := EvalAll(env, ts[1..], approx, active, p.memo);
      if rest.values.Some? {
        assert vs + ([p.value.value] + rest.values.value) == (vs + [p.value.value]) + rest.values.value;
      }
    }
  }

  /** The terms before the i-th have the values vs, and those from it on complete the whole. */
  ghost predicate Past(env: Env, ts: seq<Filter>, i: nat, approx: Values, active: set<string>, memo: Values,
                       whole: ListPass, vs: seq<Ranges>, cyclic: bool)
    requires env.Valid() && (forall t :: t in ts ==> WellFormed(t)) && GoodValues(env, approx) && GoodValues(env, memo)
  {
    && i == |vs| <= |ts| && (forall w :: w in vs ==> Good(env.afi, w))
    && Partway(whole, vs, EvalAll(env, ts[i..], approx, active, memo), cyclic)
  }

  lemma {:induction false} PartwayStart(env: Env, ts: seq<Filter>, approx: Values, active: set<string>, memo: Values)
    requires env.Valid() && (forall t :: t in ts ==> WellFormed(t)) && GoodValues(env, approx) && GoodValues(env, memo)
    ensures Past(env, ts, 0, approx, active, memo, EvalAll(env, ts, approx, active, memo), [], false)
  {
    var whole := EvalAll(env, ts, approx, active, memo);
    assert ts[0..] == ts && (whole.values.Some? ==> [] + whole.values.value == whole.values.value);
  }

  lemma {:induction false} PastStep(env: Env, ts: seq<Filter>, i: nat, approx: Values, active: set<string>,
                                    memo: Values, whole: ListPass, vs: seq<Ranges>, cyclic: bool)
    requires env.Valid() && (forall t :: t in ts ==> WellFormed(t)) && GoodValues(env, approx) && GoodValues(env, memo)
    requires i < |ts|
    requires Past(env, ts, i, approx, active, memo, whole, vs, cyclic)
    ensures var p := Eval(env, ts[i], approx, active, memo);
            if p.value.None? then whole == ListPass(None, p.memo, cyclic || p.cyclic)
            else Past(env, ts, i + 1, approx, active, p.memo, whole, vs + [p.value.value], cyclic || p.cyclic)
  {
    assert ts[i..][0] == ts[i] && ts[i..][1..] == ts[i + 1..];
    PartwayStep(env, ts[i..], approx, active, memo, whole, vs, cyclic);
  }

  lemma {:induction false} PastEnd(env: Env, ts: seq<Filter>, approx: Values, active: set<string>, memo: Values,
                                   whole: ListPass, vs: seq<Ranges>, cyclic: bool)
    requires env.Valid() && (forall t :: t in ts ==> WellFormed(t)) && GoodValues(env, approx) && GoodValues(env, memo)
    requires Past(env, ts, |ts|, approx, active, memo, whole, vs, cyclic)
    ensures whole == ListPass(Some(vs), memo, cyclic)
  {
    assert ts[|ts|..] == [] && vs + [] == vs;
  }

  class Evaluator {
    const env: Env
    var memo: Values       // filter-set values of this pass
    var approx: Values     // what the previous pass gave each filter-set
    var active: set<string> // the filter-sets whose evaluation has begun and not ended
    var cyclic: bool       // this pass took a back-edge

    constructor (env: Env)
      ensures this.env == env && memo == map[] && approx == map[] && active == {} && !cyclic
    {
      this.env := env;
      memo, approx, active, cyclic := map[], map[], {}, false;
    }

    ghost predicate Valid()
      reads this
    {
      env.Valid() && GoodValues(env, approx) && GoodValues(env, memo) && active <= env.sets.Keys
    }

    /** eval of one term. */
    method EvalTerm(f: Filter) returns (v: Option<Ranges>)
      requires Valid() && WellFormed(f)
      modifies this`memo, this`active, this`cyclic
      ensures Valid() && active == old(active)
      ensures var p := Eval(env, f, approx, old(active), old(memo));
              v == p.value && memo == p.memo && cyclic == (old(cyclic) || p.cyclic)
      decreases env.sets.Keys - active, Size(f), 1
    {
      match f
      case FAny => v := Some(Everything(env.afi));
      case FPrefixList(rs) => v := Some(Listed(env.afi, rs));
      case FSource(k, op) =>
        if k in env.failing { return None; }
        v := Some(PutOps(env.afi, env.Source(k), op));
      case FAnySet(op) =>
        if !env.anyAll { return None; }
        v := Some(PutOps(env.afi, Everything(env.afi), op));
      case FFilterSet(n, op) =>
        v := FilterSetValue(n);
        if v.Some? && !op.IsZero() { v := Some(PutOps(env.afi, v.value, op)); }
      case FOr(ts) => v := EvalGroup(ts, false);
      case FAnd(ts) => v := EvalGroup(ts, true);
      case FNot(_) => v := None;
      case FTest(_, _) => v := None;
    }

    /** The terms of an AND or an OR, folded as they are evaluated. */
    method EvalGroup(ts: seq<Filter>, and: bool) returns (v: Option<Ranges>)
      requires Valid() && forall t :: t in ts ==> WellFormed(t)
      modifies this`memo, this`active, this`cyclic
      ensures Valid() && active == old(active)
      ensures var p := EvalAll(env, ts, approx, old(active), old(memo));
              memo == p.memo && cyclic == (old(cyclic) || p.cyclic) &&
              v == if p.values.None? then None
                else Some(if and then MeetOf(p.values.value) else UnionOf(p.values.value))
      decreases env.sets.Keys - active, SizeAll(ts), 1
    {
      var out: Ranges := {};
      ghost var vs: seq<Ranges> := [];
      ghost var whole := EvalAll(env, ts, approx, active, memo);
      ghost var cyc := false;
      PartwayStart(env, ts, approx, active, memo);
      for i := 0 to |ts|
        invariant Valid() && active == old(active) && cyclic == (old(cyclic) || cyc)
        invariant Past(env, ts, i, approx, active, memo, whole, vs, cyc)
        invariant out == if and then MeetOf(vs) else UnionOf(vs)
      {
        var ok;
        ghost var took;
        ok, out, vs, took := EvalNext(ts, i, and, out, whole, vs, cyc);
        cyc := cyc || took;
        if !ok { return None; }
      }
      PastEnd(env, ts, approx, active, memo, whole, vs, cyc);
      return Some(out);
    }

    /** The i-th term of a group, folded into out. */
    method EvalNext(ts: seq<Filter>, i: nat, and: bool, out: Ranges, ghost whole: ListPass, ghost vs: seq<Ranges>,
                    ghost cyc: bool)
      returns (ok: bool, out': Ranges, ghost vs': seq<Ranges>, ghost took: bool)
      requires Valid() && (forall t :: t in ts ==> WellFormed(t)) && i < |ts|
      requires Past(env, ts, i, approx, active, memo, whole, vs, cyc) && out == if and then MeetOf(vs) else UnionOf(vs)
      modifies this`memo, this`active, this`cyclic
      ensures Valid() && active == old(active)
      ensures cyclic == (old(cyclic) || took)
      ensures !ok ==> whole == ListPass(None, memo, cyc || took)
      ensures ok ==>
              Past(env, ts, i + 1, approx, active, memo, whole, vs', cyc || took) && out' == if and then MeetOf(vs')
                else UnionOf(vs')
      decreases env.sets.Keys - active, SizeAll(ts), 0
    {
      SizeAt(ts, i);
      PastStep(env, ts, i, approx, active, memo, whole, vs, cyc);
      took := Eval(env, ts[i], approx, active, memo).cyclic;
      var got := EvalTerm(ts[i]);
      ok, out', vs' := got.Some?, out, vs;
      if ok {
        out' := Fold(and, i == 0, out, got.value, vs);
        vs' := vs + [got.value];
      }
    }

    /** A filter-set's value in this pass: the previous pass's on a back-edge, this pass's once computed,
        and otherwise its filter's. */
    method FilterSetValue(n: string) returns (v: Option<Ranges>)
      requires Valid()
      modifies this`memo, this`active, this`cyclic
      ensures Valid() && active == old(active)
      ensures var p := SetValue(env, n, approx, old(active), old(memo));
              v == p.value && memo == p.memo && cyclic == (old(cyclic) || p.cyclic)
      decreases env.sets.Keys - active, 0, 0
    {
      if n in active {
        cyclic := true;
        return Some(Lookup(approx, n));
      }
      if n in memo { return Some(memo[n]); }
      if n !in env.sets { return Some({}); }
      ghost var outer := active;
      active := active + {n};
      v := EvalTerm(env.sets[n]);
      active := active - {n};
      assert active == outer;
      if v.Some? { memo := memo[n := v.value]; }
    }

    /** One pass over f. */
    method OnePass(f: Filter, ghost pass: PassFn) returns (v: Option<Ranges>)
      requires Valid() && WellFormed(f) && active == {} && IsPass(env, f, pass)
      modifies this`memo, this`active, this`cyclic
      ensures Valid() && active == {} && v == pass(approx).value && memo == pass(approx).memo
      ensures cyclic == pass(approx).cyclic
    {
      memo, cyclic := map[], false;
      v := EvalTerm(f);
    }

    /** runWith: passes until one takes no back-edge or agrees with the one before. It stops on every
        filter, and what it answers denotes the filter's meaning under the least solution of the
        filter-set equations. None means some term reached has no finite value. */
    method Run(f: Filter) returns (v: Option<Ranges>)
      requires Valid() && WellFormed(f) && active == {} && approx == map[]
      modifies this
      ensures Valid() && active == {}
      ensures Answers(env, f, v)
      ensures v.Some? <==> !Blocked(env, f)
      ensures v.Some? ==> Good(env.afi, v.value) && DenotesMeaning(env, f, v.value)
    {
      ghost var ps, all := BoundingPairs(env, f);
      ghost var pass := PassesOver(env, f);
      assert pass(map[]) == Eval(env, f, map[], {}, map[]);
      EvaluatesIff(env, f);
      v := RunPasses(f, pass, ps, all);
    }

    method RunPasses(f: Filter, ghost pass: PassFn, ghost ps: set<Prefix>, ghost all: set<(string, PrefixRange)>)
      returns (v: Option<Ranges>)
      requires Valid() && WellFormed(f) && active == {} && approx == map[] && IsPass(env, f, pass)
      requires PrefixesIn(env, f) <= ps && AllBased(env, map[], ps)
      requires forall m: Values :: GoodValues(env, m) && AllBased(env, m, ps) ==> PairsOf(m) <= all
      modifies this
      ensures Valid() && active == {} && Ends(pass, v) && (v.Some? <==> pass(map[]).value.Some?)
      ensures v.Some? ==> Good(env.afi, v.value) && DenotesMeaning(env, f, v.value)
    {
      ghost var passes: nat := 0;
      RunStarts(env, f, pass, ps);
      while true
        invariant Valid() && active == {} && Running(env, pass, approx, ps, passes)
        decreases env.sets.Keys - approx.Keys, all - PairsOf(approx)
      {
        var last;
        v, last := PassOn(f, pass, ps, all, passes);
        if last { return; }
        passes := passes + 1;
      }
    }

    /** One pass, the last or one that brings the values closer to their bound. */
    method PassOn(f: Filter, ghost pass: PassFn, ghost ps: set<Prefix>, ghost all: set<(string, PrefixRange)>,
                  ghost passes: nat)
      returns (v: Option<Ranges>, last: bool)
      requires Valid() && WellFormed(f) && active == {} && IsPass(env, f, pass)
      requires Running(env, pass, approx, ps, passes)
      requires PrefixesIn(env, f) <= ps && forall m: Values :: GoodValues(env, m) && AllBased(env, m, ps) ==>
               PairsOf(m) <= all
      modifies this
      ensures Valid() && active == {}
      ensures last ==> Ends(pass, v) && (v.Some? <==> pass(map[]).value.Some?)
      ensures last && v.Some? ==> Good(env.afi, v.value) && DenotesMeaning(env, f, v.value)
      ensures !last ==> Running(env, pass, approx, ps, passes + 1) && Nearer(env, all, old(approx), approx)
    {
      v := OnePass(f, pass);
      last := v.None? || !cyclic || memo == approx;
      if last {
        RunStops(env, f, pass, approx, ps, passes);
      } else {
        RunGoesOn(env, f, pass, approx, ps, all, passes);
        approx := memo;
      }
    }
  }

  // ---- the run as a whole ----

  /** pass is a pass over f. */
  ghost predicate IsPass(env: Env, f: Filter, pass: PassFn)
    requires env.Valid() && WellFormed(f)
  {
    forall m: Values {:trigger Eval(env, f, m, {}, map[])} :: GoodValues(env, m) ==>
      pass(m) == Eval(env, f, m, {}, map[])
  }

  lemma {:induction false} PassesOver(env: Env, f: Filter) returns (pass: PassFn)
    requires env.Valid() && WellFormed(f)
    ensures IsPass(env, f, pass) && forall v :: Ends(pass, v) ==> Answers(env, f, v)
  {
    pass := PassOf(env, f);
  }

  /** What holds between passes: approx is what the passes so far left, below what the next will leave and
      below every closed valuation. */
  ghost predicate Running(env: Env, pass: PassFn, approx: Values, ps: set<Prefix>, passes: nat)
    requires env.Valid()
  {
    && GoodValues(env, approx) && UnderAll(env, approx) && AllBased(env, approx, ps)
    && pass(approx).value.Some? == pass(map[]).value.Some? && Below(approx, pass(approx).memo)
    && GoesOn(pass, passes) && Approx(pass, passes) == approx
  }

  lemma {:induction false} RunStarts(env: Env, f: Filter, pass: PassFn, ps: set<Prefix>)
    requires env.Valid() && WellFormed(f) && AllBased(env, map[], ps)
    ensures Running(env, pass, map[], ps, 0)
  {
  }

  lemma {:induction false} RunStops(env: Env, f: Filter, pass: PassFn, approx: Values, ps: set<Prefix>, passes: nat)
    requires env.Valid() && WellFormed(f) && IsPass(env, f, pass) && Running(env, pass, approx, ps, passes)
    requires LastPass(pass, approx)
    ensures var v := pass(approx).value;
            && Ends(pass, v) && (v.Some? <==> pass(map[]).value.Some?)
            && (v.Some? ==> Good(env.afi, v.value) && DenotesMeaning(env, f, v.value))
  {
    assert Stops(pass, passes);
    if pass(approx).value.Some? { LastPassIsMeaning(env, f, approx); }
  }

  lemma {:induction false} RunGoesOn(env: Env, f: Filter, pass: PassFn, approx: Values, ps: set<Prefix>,
                                     all: set<(string, PrefixRange)>, passes: nat)
    requires env.Valid() && WellFormed(f) && IsPass(env, f, pass) && Running(env, pass, approx, ps, passes)
    requires !LastPass(pass, approx)
    requires PrefixesIn(env, f) <= ps && forall m: Values :: GoodValues(env, m) && AllBased(env, m, ps) ==>
             PairsOf(m) <= all
    ensures var memo := pass(approx).memo;
            Running(env, pass, memo, ps, passes + 1) && Nearer(env, all, approx, memo)
  {
    var memo := pass(approx).memo;
    PassBounds(env, f, pass, approx, ps);
    PassGrows(env, f, pass, approx, memo);
    PairsGrow(env, approx, memo, ps, all);
    GoesOnMore(pass, passes);
  }

  lemma {:induction false} PassBounds(env: Env, f: Filter, pass: PassFn, approx: Values, ps: set<Prefix>)
    requires env.Valid() && WellFormed(f) && IsPass(env, f, pass) && GoodValues(env, approx) && UnderAll(env, approx)
    requires AllBased(env, approx, ps) && PrefixesIn(env, f) <= ps && pass(approx).value.Some?
    ensures GoodValues(env, pass(approx).memo) && UnderAll(env, pass(approx).memo)
    ensures AllBased(env, pass(approx).memo, ps)
  {
    PassStaysUnder(env, f, approx);
    EvalBased(env, f, approx, {}, map[], ps);
  }

  lemma {:induction false} PassGrows(env: Env, f: Filter, pass: PassFn, a: Values, b: Values)
    requires env.Valid() && WellFormed(f) && IsPass(env, f, pass) && GoodValues(env, a) && GoodValues(env, b)
    requires Below(a, b)
    ensures pass(a).value.Some? == pass(b).value.Some? && Below(pass(a).memo, pass(b).memo)
  {
    EvalMono(env, f, a, b, {}, map[], map[]);
  }

  lemma PassStaysUnder(env: Env, f: Filter, approx: Values)
    requires env.Valid() && WellFormed(f) && GoodValues(env, approx) && UnderAll(env, approx)
    requires Eval(env, f, approx, {}, map[]).value.Some?
    ensures UnderAll(env, Eval(env, f, approx, {}, map[]).memo)
  {
    forall sigma: Valuation, tau: Tests | Closed(env, sigma, tau)
      ensures UnderSigma(Eval(env, f, approx, {}, map[]).memo, sigma)
    {
      PassUnderAll(env, f, approx, tau);
    }
  }

  // ---- why the passes stop ----

  function PairsOf(m: Values): set<(string, PrefixRange)> { set n, r | n in m && r in m[n] :: (n, r) }

  /** b has values for more filter-sets than a, or for as many and more ranges in them. */
  predicate Nearer(env: Env, all: set<(string, PrefixRange)>, a: Values, b: Values) {
    env.sets.Keys - b.Keys < env.sets.Keys - a.Keys ||
    (env.sets.Keys - b.Keys == env.sets.Keys - a.Keys && all - PairsOf(b) < all - PairsOf(a))
  }

  /** Every (filter-set, range) pair a pass can hold is among finitely many. */
  lemma BoundingPairs(env: Env, f: Filter) returns (ps: set<Prefix>, all: set<(string, PrefixRange)>)
    requires env.Valid()
    ensures PrefixesIn(env, f) <= ps && AllBased(env, map[], ps)
    ensures forall m: Values :: GoodValues(env, m) && AllBased(env, m, ps) ==> PairsOf(m) <= all
  {
    ps := PrefixesIn(env, f) + set n, p | n in env.sets && p in PrefixesIn(env, env.sets[n]) :: p;
    var rs := RangesAt(ps);
    all := set n, r | n in env.sets.Keys && r in rs :: (n, r);
    forall m: Values | GoodValues(env, m) && AllBased(env, m, ps) ensures PairsOf(m) <= all {
      forall n, r | n in m && r in m[n] ensures (n, r) in all { BasedWithin(m[n], ps); }
    }
  }

  lemma PairsGrow(env: Env, a: Values, b: Values, ps: set<Prefix>, all: set<(string, PrefixRange)>)
    requires GoodValues(env, a) && GoodValues(env, b) && AllBased(env, b, ps) && Below(a, b) && a != b
    requires forall m: Values :: GoodValues(env, m) && AllBased(env, m, ps) ==> PairsOf(m) <= all
    ensures Nearer(env, all, a, b)
  {
    if a.Keys == b.Keys {
      var n :| n in a && a[n] != b[n];
      var r :| r in b[n] && r !in a[n];
      assert (n, r) in PairsOf(b) && (n, r) !in PairsOf(a);
      assert PairsOf(a) <= PairsOf(b) <= all;
    }
  }
}
