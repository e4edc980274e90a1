/** Repeated passes reach the least solution of the filter-set equations
    (resolve/expand_more.go:242-275, 492-525). */
module FilterFixpoint {
  import opened Prefixes
  import opened RangeIndex
  import opened Filters
  import opened FilterPasses

  // ---- what a pass leaves behind ----

  /** The filter-sets f names. */
  function Refs(f: Filter): set<string> {
    match f
    case FFilterSet(n, _) => {n}
    case FOr(ts) => RefsAll(ts)
    case FAnd(ts) => RefsAll(ts)
    case FNot(g) => Refs(g)
    case _ => {}
  }

  function RefsAll(ts: seq<Filter>): set<string> {
    if ts == [] then {} else Refs(ts[0]) + RefsAll(ts[1..])
  }

  predicate Extends(m: Values, m': Values) { forall n :: n in m ==> n in m' && m'[n] == m[n] }

  /** Every filter-set of ns that exists is in m or among active. */
  predicate Held(env: Env, ns: set<string>, m: Values, active: set<string>) {
    forall n :: n in ns && n in env.sets ==> n in m || n in active
  }

  /** The filter-sets m' adds to m are not among active, and name only sets held. */
  predicate Grew(env: Env, m: Values, m': Values, active: set<string>) {
    Extends(m, m') && m'.Keys <= env.sets.Keys &&
      (forall n :: n in m' && n !in m ==> n !in active && Held(env, Refs(env.sets[n]), m', active))
  }

  lemma GrewTransitive(env: Env, a: Values, b: Values, c: Values, active: set<string>)
    requires Grew(env, a, b, active) && Grew(env, b, c, active)
    ensures Grew(env, a, c, active)
  {
    forall n | n in c && n !in a ensures n !in active && Held(env, Refs(env.sets[n]), c, active) {
      if n in b { assert Held(env, Refs(env.sets[n]), b, active); }
    }
  }

  lemma {:induction false} EvalGrows(env: Env, f: Filter, approx: Values, active: set<string>, memo: Values)
    requires env.Valid() && WellFormed(f) && GoodValues(env, approx) && GoodValues(env, memo)
    requires Eval(env, f, approx, active, memo).value.Some?
    ensures var p := Eval(env, f, approx, active, memo);
            Grew(env, memo, p.memo, active) && Held(env, Refs(f), p.memo, active)
    decreases env.sets.Keys - active, Size(f)
  {
    match f
    case FFilterSet(n, _) => SetValueGrows(env, n, approx, active, memo);
    case FOr(ts) => EvalAllGrows(env, ts, approx, active, memo);
    case FAnd(ts) => EvalAllGrows(env, ts, approx, active, memo);
    case _ =>
  }

  lemma {:induction false} EvalAllGrows(env: Env, ts: seq<Filter>, approx: Values, active: set<string>, memo: Values)
    requires env.Valid() && (forall t :: t in ts ==> WellFormed(t)) && GoodValues(env, approx) && GoodValues(env, memo)
    requires EvalAll(env, ts, approx, active, memo).values.Some?
    ensures var p := EvalAll(env, ts, approx, active, memo);
            Grew(env, memo, p.memo, active) && Held(env, RefsAll(ts), p.memo, active)
    decreases env.sets.Keys - active, SizeAll(ts)
  {
    if ts != [] {
      var p := Eval(env, ts[0], approx, active, memo);
      EvalGrows(env, ts[0], approx, active, memo);
      EvalAllGrows(env, ts[1..], approx, active, p.memo);
      GrewTransitive(env, memo, p.memo, EvalAll(env, ts, approx, active, memo).memo, active);
    }
  }

  lemma {:induction false} SetValueGrows(env: Env, n: string, approx: Values, active: set<string>, memo: Values)
    requires env.Valid() && GoodValues(env, approx) && GoodValues(env, memo)
    requires SetValue(env, n, approx, active, memo).value.Some?
    ensures var p := SetValue(env, n, approx, active, memo);
            Grew(env, memo, p.memo, active) && Held(env, {n}, p.memo, active)
    decreases env.sets.Keys - active, 0
  {
    if n !in active && n !in memo && n in env.sets {
      EvalGrows(env, env.sets[n], approx, active + {n}, memo);
    }
  }

  // ---- a pass is monotone in the pass before ----

  predicate Below(a: Values, b: Values) { forall n :: n in a ==> n in b && a[n] <= b[n] }

  predicate SameKeysBelow(a: Values, b: Values) { a.Keys == b.Keys && Below(a, b) }

  predicate AllBelow(vs: seq<Ranges>, ws: seq<Ranges>) {
    |vs| == |ws| && forall i :: 0 <= i < |vs| ==> vs[i] <= ws[i]
  }

  lemma {:induction false} UnionOfMono(vs: seq<Ranges>, ws: seq<Ranges>)
    requires AllBelow(vs, ws)
    ensures UnionOf(vs) <= UnionOf(ws)
  {
    if vs != [] { UnionOfMono(vs[1..], ws[1..]); }
  }

  lemma IntersectionsMono(a: Ranges, b: Ranges, c: Ranges, d: Ranges)
    requires AllValid(a) && AllValid(b) && AllValid(c) && AllValid(d) && a <= c && b <= d
    ensures PairwiseIntersections(a, b) <= PairwiseIntersections(c, d)
  {
  }

  lemma {:induction false} MeetFromMono(a: Ranges, b: Ranges, vs: seq<Ranges>, ws: seq<Ranges>)
    requires Good(AfiAny, a) && Good(AfiAny, b) && (forall v :: v in vs ==> Good(AfiAny, v))
    requires forall w :: w in ws ==> Good(AfiAny, w)
    requires a <= b && AllBelow(vs, ws)
    ensures MeetFrom(a, vs) <= MeetFrom(b, ws)
    decreases |vs|
  {
    if vs != [] {
      assert vs[0] in vs && ws[0] in ws;
      IntersectionsMono(a, vs[0], b, ws[0]);
      MeetFromMono(PairwiseIntersections(a, vs[0]), PairwiseIntersections(b, ws[0]), vs[1..], ws[1..]);
    }
  }

  lemma MeetOfMono(vs: seq<Ranges>, ws: seq<Ranges>)
    requires (forall v :: v in vs ==> Good(AfiAny, v)) && (forall w :: w in ws ==> Good(AfiAny, w)) && AllBelow(vs, ws)
    ensures MeetOf(vs) <= MeetOf(ws)
  {
    if vs != [] {
      assert vs[0] in vs && ws[0] in ws;
      MeetFromMono(vs[0], ws[0], vs[1..], ws[1..]);
    }
  }

  lemma PutOpsMono(afi: Afi, v: Ranges, w: Ranges, op: RangeOperator)
    requires Good(AfiAny, v) && Good(AfiAny, w) && v <= w
    ensures PutOps(afi, v, op) <= PutOps(afi, w, op)
  {
  }

  /** The later pass's answer is the earlier one's or more, found the same way. */
  predicate PassBelow(p: Pass, p': Pass) {
    && p.value.Some? == p'.value.Some? && p.cyclic == p'.cyclic && SameKeysBelow(p.memo, p'.memo)
    && (p.value.Some? ==> p.value.value <= p'.value.value)
  }

  lemma {:induction false} EvalMono(env: Env, f: Filter, approx: Values, approx': Values, active: set<string>,
                                    memo: Values, memo': Values)
    requires env.Valid() && WellFormed(f) && GoodValues(env, approx) && GoodValues(env, memo)
    requires GoodValues(env, approx') && GoodValues(env, memo')
    requires Below(approx, approx') && SameKeysBelow(memo, memo')
    ensures PassBelow(Eval(env, f, approx, active, memo), Eval(env, f, approx', active, memo'))
    decreases env.sets.Keys - active, Size(f), 1
  {
    match f
    case FFilterSet(_, _) => SetMono(env, f, approx, approx', active, memo, memo');
    case FOr(_) => GroupMono(env, f, approx, approx', active, memo, memo');
    case FAnd(_) => GroupMono(env, f, approx, approx', active, memo, memo');
    case _ => LeafMono(env, f, approx, approx', active, memo, memo');
  }

  lemma {:induction false} LeafMono(env: Env, f: Filter, approx: Values, approx': Values, active: set<string>,
                                    memo: Values, memo': Values)
    requires env.Valid() && WellFormed(f) && GoodValues(env, approx) && GoodValues(env, memo)
    requires GoodValues(env, approx') && GoodValues(env, memo')
    requires SameKeysBelow(memo, memo') && !f.FFilterSet? && !f.FOr? && !f.FAnd?
    ensures PassBelow(Eval(env, f, approx, active, memo), Eval(env, f, approx', active, memo'))
  {
  }

  lemma {:induction false} SetMono(env: Env, f: Filter, approx: Values, approx': Values, active: set<string>,
                                   memo: Values, memo': Values)
    requires env.Valid() && WellFormed(f) && GoodValues(env, approx) && GoodValues(env, memo)
    requires GoodValues(env, approx') && GoodValues(env, memo')
    requires Below(approx, approx') && SameKeysBelow(memo, memo') && f.FFilterSet?
    ensures PassBelow(Eval(env, f, approx, active, memo), Eval(env, f, approx', active, memo'))
    decreases env.sets.Keys - active, Size(f), 0
  {
    SetValueMono(env, f.name, approx, approx', active, memo, memo');
    var p, p' := SetValue(env, f.name, approx, active, memo), SetValue(env, f.name, approx', active, memo');
    if p.value.Some? { PutOpsMono(env.afi, p.value.value, p'.value.value, f.op); }
  }

  lemma {:induction false} GroupMono(env: Env, f: Filter, approx: Values, approx': Values, active: set<string>,
                                     memo: Values, memo': Values)
    requires env.Valid() && WellFormed(f) && GoodValues(env, approx) && GoodValues(env, memo)
    requires GoodValues(env, approx') && GoodValues(env, memo')
    requires Below(approx, approx') && SameKeysBelow(memo, memo') && (f.FOr? || f.FAnd?)
    ensures PassBelow(Eval(env, f, approx, active, memo), Eval(env, f, approx', active, memo'))
    decreases env.sets.Keys - active, Size(f), 0
  {
    EvalAllMono(env, f.terms, approx, approx', active, memo, memo');
    var p, p' := EvalAll(env, f.terms, approx, active, memo), EvalAll(env, f.terms, approx', active, memo');
    if p.values.Some? {
      UnionOfMono(p.values.value, p'.values.value);
      MeetOfMono(p.values.value, p'.values.value);
    }
  }

  lemma {:induction false} EvalAllMono(env: Env, ts: seq<Filter>, approx: Values, approx': Values, active: set<string>,
                                       memo: Values, memo': Values)
    requires env.Valid() && (forall t :: t in ts ==> WellFormed(t))
    requires GoodValues(env, approx) && GoodValues(env, memo) && GoodValues(env, approx') && GoodValues(env, memo')
    requires Below(approx, approx') && SameKeysBelow(memo, memo')
    ensures var p, p' := EvalAll(env, ts, approx, active, memo), EvalAll(env, ts, approx', active, memo');
            p.values.Some? == p'.values.Some? && p.cyclic == p'.cyclic && SameKeysBelow(p.memo, p'.memo) &&
            (p.values.Some? ==> AllBelow(p.values.value, p'.values.value))
    decreases env.sets.Keys - active, SizeAll(ts), 0
  {
    if ts != [] {
      EvalMono(env, ts[0], approx, approx', active, memo, memo');
      var p, p' := Eval(env, ts[0], approx, active, memo), Eval(env, ts[0], approx', active, memo');
      if p.value.Some? {
        EvalAllMono(env, ts[1..], approx, approx', active, p.memo, p'.memo);
      }
    }
  }

  lemma {:induction false} SetValueMono(env: Env, n: string, approx: Values, approx': Values, active: set<string>,
                                        memo: Values, memo': Values)
    requires env.Valid() && GoodValues(env, approx) && GoodValues(env, memo) && GoodValues(env, approx')
    requires GoodValues(env, memo')
    requires Below(approx, approx') && SameKeysBelow(memo, memo')
    ensures PassBelow(SetValue(env, n, approx, active, memo), SetValue(env, n, approx', active, memo'))
    decreases env.sets.Keys - active, 0, 0
  {
    if n !in active && n !in memo && n in env.sets {
      EvalMono(env, env.sets[n], approx, approx', active + {n}, memo, memo');
      StoredMono(Eval(env, env.sets[n], approx, active + {n}, memo),
        Eval(env, env.sets[n], approx', active + {n}, memo'), n);
    }
  }

  lemma {:induction false} StoredMono(p: Pass, p': Pass, n: string)
    requires PassBelow(p, p')
    ensures PassBelow(Stored(p, n), Stored(p', n))
  {
  }

  // ---- lists of values ----

  ghost predicate SomeDenotes(vs: seq<Ranges>, q: Prefix) {
    vs != [] && (RangesDenote(vs[0], q) || SomeDenotes(vs[1..], q))
  }

  ghost predicate EachDenotes(vs: seq<Ranges>, q: Prefix) {
    vs == [] || (RangesDenote(vs[0], q) && EachDenotes(vs[1..], q))
  }

  lemma {:induction false} UnionOfDenotes(vs: seq<Ranges>, q: Prefix)
    ensures RangesDenote(UnionOf(vs), q) <==> SomeDenotes(vs, q)
  {
    if vs != [] {
      UnionOfDenotes(vs[1..], q);
      UnionDenotes(vs[0], UnionOf(vs[1..]), q);
    }
  }

  lemma {:induction false} MeetFromDenotes(acc: Ranges, vs: seq<Ranges>, q: Prefix)
    requires Good(AfiAny, acc) && forall v :: v in vs ==> Good(AfiAny, v)
    ensures RangesDenote(MeetFrom(acc, vs), q) <==> RangesDenote(acc, q) && EachDenotes(vs, q)
    decreases |vs|
  {
    if vs != [] {
      assert vs[0] in vs;
      IntersectionsDenote(acc, vs[0], q);
      MeetFromDenotes(PairwiseIntersections(acc, vs[0]), vs[1..], q);
    }
  }

  lemma MeetOfDenotes(vs: seq<Ranges>, q: Prefix)
    requires forall v :: v in vs ==> Good(AfiAny, v)
    ensures RangesDenote(MeetOf(vs), q) <==> vs != [] && EachDenotes(vs, q)
  {
    if vs != [] {
      assert vs[0] in vs;
      MeetFromDenotes(vs[0], vs[1..], q);
    }
  }

  // ---- values that agree with the pass before solve the equations ----

  /** The valuation a pass's values stand for. */
  ghost function Sigma(m: Values): Valuation { (n: string, q: Prefix) => n in m && RangesDenote(m[n], q) }

  /** v denotes what f means under sigma. */
  ghost predicate Denotes(env: Env, f: Filter, v: Ranges, sigma: Valuation, tau: Tests)
    requires env.Valid()
  {
    forall q: Prefix :: q.Valid() ==> (RangesDenote(v, q) <==> Meaning(env, f, sigma, tau, q))
  }

  /** The filter-sets memo' adds satisfy their equations in m. */
  ghost predicate Solved(env: Env, memo: Values, memo': Values, m: Values, tau: Tests)
    requires env.Valid() && memo'.Keys <= env.sets.Keys
  {
    Extends(memo', m) && forall n :: n in memo' && n !in memo ==> Denotes(env, env.sets[n], m[n], Sigma(m), tau)
  }

  lemma SetDenotes(env: Env, n: string, op: RangeOperator, v: Ranges, m: Values, tau: Tests)
    requires env.Valid() && n in env.sets && v == Lookup(m, n) && Good(env.afi, v)
    ensures Denotes(env, FFilterSet(n, op), if op.IsZero() then v else PutOps(env.afi, v, op), Sigma(m), tau)
  {
    var w := if op.IsZero() then v else PutOps(env.afi, v, op);
    forall q: Prefix | q.Valid() ensures RangesDenote(w, q) <==> SetYields(Sigma(m), n, op, q) {
      if !op.IsZero() {
        PutOpsDenote(env.afi, v, op, q);
        assert YieldsFrom(v, op, q) <==> SetYields(Sigma(m), n, op, q) by {
          forall p: Prefix ensures RangesDenote(v, p) <==> Sigma(m)(n, p) {}
        }
      } else if RangesDenote(w, q) {
        assert Sigma(m)(n, q) && op.Yields(q, q);
      }
    }
  }

  lemma LeafDenotes(env: Env, f: Filter, approx: Values, active: set<string>, memo: Values, sigma: Valuation,
                    tau: Tests)
    requires env.Valid() && WellFormed(f) && GoodValues(env, approx) && GoodValues(env, memo)
    requires f.FAny? || f.FPrefixList? || f.FSource? || f.FAnySet?
    requires Eval(env, f, approx, active, memo).value.Some?
    ensures Denotes(env, f, Eval(env, f, approx, active, memo).value.value, sigma, tau)
  {
    match f
    case FSource(k, op) =>
      forall q: Prefix | q.Valid()
        ensures RangesDenote(PutOps(env.afi, env.Source(k), op), q) <==> Meaning(env, f, sigma, tau, q)
      {
        PutOpsDenote(env.afi, env.Source(k), op, q);
      }
    case FAnySet(op) =>
      forall q: Prefix | q.Valid()
        ensures RangesDenote(PutOps(env.afi, Everything(env.afi), op), q) <==> Meaning(env, f, sigma, tau, q)
      {
        PutOpsDenote(env.afi, Everything(env.afi), op, q);
        if env.afi.Allows(q.family) { EverythingYields(env.afi, op, q); }
      }
    case FPrefixList(rs) =>
      forall q: Prefix | q.Valid() ensures RangesDenote(Listed(env.afi, rs), q) <==> Meaning(env, f, sigma, tau, q) {
        ListedDenotes(env.afi, rs, q);
      }
    case FAny =>
      forall q: Prefix | q.Valid() ensures RangesDenote(Everything(env.afi), q) <==> Meaning(env, f, sigma, tau, q) {
        EverythingDenotes(env.afi, q);
      }
  }

  lemma ListedDenotes(afi: Afi, rs: seq<PrefixRange>, q: Prefix)
    ensures RangesDenote(Listed(afi, rs), q) <==> afi.Allows(q.family) && exists r :: r in rs && r.Denotes(q)
  {
    if afi.Allows(q.family) {
      if r :| r in rs && r.Denotes(q) { assert r in Listed(afi, rs); }
    }
  }

  lemma EverythingYields(afi: Afi, op: RangeOperator, q: Prefix)
    requires q.Valid() && afi.Allows(q.family)
    ensures YieldsFrom(Everything(afi), op, q) <==> YieldsFrom(Everything(AfiAny), op, q)
  {
    forall p: Prefix | op.Yields(p, q) ensures RangesDenote(Everything(afi), p) && RangesDenote(Everything(AfiAny), p) {
      EverythingDenotes(afi, p);
      EverythingDenotes(AfiAny, p);
    }
  }

  lemma {:induction false} EvalSolves(env: Env, f: Filter, approx: Values, active: set<string>, memo: Values, m: Values,
                                      tau: Tests)
    requires env.Valid() && WellFormed(f) && GoodValues(env, approx) && GoodValues(env, memo) && active <= env.sets.Keys
    requires var p := Eval(env, f, approx, active, memo);
             p.value.Some? && Extends(p.memo, m) && (p.cyclic ==> approx == m)
    ensures var p := Eval(env, f, approx, active, memo);
            Denotes(env, f, p.value.value, Sigma(m), tau) && Solved(env, memo, p.memo, m, tau)
    decreases env.sets.Keys - active, Size(f), 1
  {
    match f
    case FFilterSet(n, op) => SetSolves(env, n, op, approx, active, memo, m, tau);
    case FOr(_) => GroupSolves(env, f, approx, active, memo, m, tau);
    case FAnd(_) => GroupSolves(env, f, approx, active, memo, m, tau);
    case _ => LeafDenotes(env, f, approx, active, memo, Sigma(m), tau);
  }

  lemma {:induction false} GroupSolves(env: Env, f: Filter, approx: Values, active: set<string>, memo: Values,
                                       m: Values, tau: Tests)
    requires env.Valid() && WellFormed(f) && GoodValues(env, approx) && GoodValues(env, memo) && active <= env.sets.Keys
    requires f.FOr? || f.FAnd?
    requires var p := Eval(env, f, approx, active, memo);
             p.value.Some? && Extends(p.memo, m) && (p.cyclic ==> approx == m)
    ensures var p := Eval(env, f, approx, active, memo);
            Denotes(env, f, p.value.value, Sigma(m), tau) && Solved(env, memo, p.memo, m, tau)
    decreases env.sets.Keys - active, Size(f), 0
  {
    EvalAllSolves(env, f.terms, approx, active, memo, m, tau);
    var vs := EvalAll(env, f.terms, approx, active, memo).values.value;
    forall q: Prefix | q.Valid()
      ensures RangesDenote(if f.FOr? then UnionOf(vs) else MeetOf(vs), q) <==> Meaning(env, f, Sigma(m), tau, q)
    {
      UnionOfDenotes(vs, q);
      MeetOfDenotes(vs, q);
    }
  }

  lemma {:induction false} EvalAllSolves(env: Env, ts: seq<Filter>, approx: Values, active: set<string>, memo: Values,
                                         m: Values, tau: Tests)
    requires env.Valid() && (forall t :: t in ts ==> WellFormed(t)) && GoodValues(env, approx) && GoodValues(env, memo)
    requires active <= env.sets.Keys
    requires var p := EvalAll(env, ts, approx, active, memo);
             p.values.Some? && Extends(p.memo, m) && (p.cyclic ==> approx == m)
    ensures var p := EvalAll(env, ts, approx, active, memo);
            |p.values.value| == |ts| && Solved(env, memo, p.memo, m, tau)
    ensures var vs := EvalAll(env, ts, approx, active, memo).values.value;
            forall q: Prefix :: q.Valid() ==> (SomeDenotes(vs, q) <==> SomeMeaning(env, ts, Sigma(m), tau, q))
    ensures var vs := EvalAll(env, ts, approx, active, memo).values.value;
            forall q: Prefix :: q.Valid() ==> (EachDenotes(vs, q) <==> EachMeaning(env, ts, Sigma(m), tau, q))
    decreases env.sets.Keys - active, SizeAll(ts)
  {
    if ts != [] {
      var p := Eval(env, ts[0], approx, active, memo);
      var rest := EvalAll(env, ts[1..], approx, active, p.memo);
      EvalAllGrows(env, ts[1..], approx, active, p.memo);
      EvalSolves(env, ts[0], approx, active, memo, m, tau);
      EvalAllSolves(env, ts[1..], approx, active, p.memo, m, tau);
      var vs := EvalAll(env, ts, approx, active, memo).values.value;
      assert vs[0] == p.value.value && vs[1..] == rest.values.value;
    }
  }

  lemma {:induction false} SetSolves(env: Env, n: string, op: RangeOperator, approx: Values, active: set<string>,
                                     memo: Values, m: Values, tau: Tests)
    requires env.Valid() && GoodValues(env, approx) && GoodValues(env, memo) && active <= env.sets.Keys
    requires var p := SetValue(env, n, approx, active, memo);
             p.value.Some? && Extends(p.memo, m) && (p.cyclic ==> approx == m)
    ensures var p := SetValue(env, n, approx, active, memo);
            Solved(env, memo, p.memo, m, tau) &&
            Denotes(env, FFilterSet(n, op), if op.IsZero() then p.value.value
              else PutOps(env.afi, p.value.value, op), Sigma(m), tau)
    decreases env.sets.Keys - active, 0, 1
  {
    var v := SetValue(env, n, approx, active, memo).value.value;
    if n !in active && n !in memo && n in env.sets { NewSetSolves(env, n, approx, active, memo, m, tau); }
    if n in env.sets { SetDenotes(env, n, op, v, m, tau); }
  }

  lemma {:induction false} NewSetSolves(env: Env, n: string, approx: Values, active: set<string>, memo: Values,
                                        m: Values, tau: Tests)
    requires env.Valid() && GoodValues(env, approx) && GoodValues(env, memo) && active <= env.sets.Keys && n !in active
    requires n !in memo && n in env.sets
    requires var p := Stored(Eval(env, env.sets[n], approx, active + {n}, memo), n);
             p.value.Some? && Extends(p.memo, m) && (p.cyclic ==> approx == m)
    ensures Solved(env, memo, Stored(Eval(env, env.sets[n], approx, active + {n}, memo), n).memo, m, tau)
    decreases env.sets.Keys - active, 0, 0
  {
    EvalGrows(env, env.sets[n], approx, active + {n}, memo);
    StoredSolves(env, n, Eval(env, env.sets[n], approx, active + {n}, memo), memo, active, m);
    EvalSolves(env, env.sets[n], approx, active + {n}, memo, m, tau);
  }

  lemma {:induction false} StoredSolves(env: Env, n: string, p: Pass, memo: Values, active: set<string>, m: Values)
    requires p.value.Some? && n !in memo && Extends(Stored(p, n).memo, m) && Grew(env, memo, p.memo, active + {n})
    ensures Extends(p.memo, m) && n !in p.memo && m[n] == p.value.value
  {
  }
}
