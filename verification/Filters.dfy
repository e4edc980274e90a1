/** Policy filters, and what they denote (sections 5.3 and 5.4 of RFC 2622). */
module Filters {
  import opened Prefixes
  import opened RangeIndex

  /** A test of the AS path or of the communities, known by its text and never evaluated. */
  datatype Test = PathTest(text: string) | CommunityTest(text: string)

  /** What the Source resolves to ranges by itself is one kind of term: a route-set, an as-set, an AS
      expression, PeerAS. */
  datatype Filter =
    | FAny
    | FPrefixList(ranges: seq<PrefixRange>)
    | FSource(key: string, op: RangeOperator)
    | FAnySet(op: RangeOperator)
    | FFilterSet(name: string, op: RangeOperator)
    | FOr(terms: seq<Filter>)
    | FAnd(terms: seq<Filter>)
    | FNot(inner: Filter)
    | FTest(test: Test, usable: bool)

  /** afi limits the answer; sets are the filter-sets the Source has, sources what it resolves the other
      terms to, failing those it cannot; anyAll makes AS-ANY and RS-ANY every route. */
  datatype Env = Env(afi: Afi, sets: map<string, Filter>, sources: map<string, Ranges>, failing: set<string>,
                     anyAll: bool) {
    predicate Valid() {
      && (forall n :: n in sets ==> WellFormed(sets[n]))
      && (forall k :: k in sources ==> Good(AfiAny, sources[k]))
    }

    function Source(k: string): (v: Ranges)
      requires Valid()
      ensures Good(AfiAny, v)
    {
      if k in sources then sources[k] else {}
    }
  }

  /** Ranges as evaluation keeps them: none invalid, empty or of another family. */
  predicate Good(afi: Afi, v: Ranges) {
    forall r :: r in v ==> r.Valid() && !r.IsEmpty() && afi.Allows(r.prefix.family)
  }

  predicate WellFormed(f: Filter) {
    match f
    case FPrefixList(rs) => forall r :: r in rs ==> r.Valid()
    case FOr(ts) => forall t :: t in ts ==> WellFormed(t)
    case FAnd(ts) => forall t :: t in ts ==> WellFormed(t)
    case FNot(g) => WellFormed(g)
    case _ => true
  }

  /** The size of a filter, for recursion through filter-sets. */
  function Size(f: Filter): (n: nat)
    ensures n > 0
  {
    match f
    case FOr(ts) => 1 + SizeAll(ts)
    case FAnd(ts) => 1 + SizeAll(ts)
    case FNot(g) => 1 + Size(g)
    case _ => 1
  }

  function SizeAll(ts: seq<Filter>): (n: nat)
    ensures n > 0
  {
    if ts == [] then 1 else Size(ts[0]) + SizeAll(ts[1..])
  }

  // ---- meaning, prefix by prefix ----

  /** Which prefixes each filter-set holds. */
  type Valuation = (string, Prefix) -> bool

  type Tests = Test -> bool

  ghost predicate YieldsFrom(v: Ranges, op: RangeOperator, q: Prefix) {
    exists p: Prefix :: RangesDenote(v, p) && op.Yields(p, q)
  }

  ghost predicate SetYields(sigma: Valuation, n: string, op: RangeOperator, q: Prefix) {
    exists p: Prefix :: sigma(n, p) && op.Yields(p, q)
  }

  /** q, with a path and communities that pass exactly the tests tau says, matches f, filter-sets being
      as sigma has them. An AND of no terms matches nothing. */
  ghost predicate Meaning(env: Env, f: Filter, sigma: Valuation, tau: Tests, q: Prefix)
    requires env.Valid()
    decreases f, 1
  {
    match f
    case FAny => env.afi.Allows(q.family)
    case FPrefixList(rs) => env.afi.Allows(q.family) && exists r :: r in rs && r.Denotes(q)
    case FSource(k, op) => env.afi.Allows(q.family) && YieldsFrom(env.Source(k), op, q)
    case FAnySet(op) => env.afi.Allows(q.family) && YieldsFrom(Everything(AfiAny), op, q)
    case FFilterSet(n, op) => n in env.sets && SetYields(sigma, n, op, q)
    case FOr(ts) => SomeMeaning(env, ts, sigma, tau, q)
    case FAnd(ts) => ts != [] && EachMeaning(env, ts, sigma, tau, q)
    case FNot(g) => !Meaning(env, g, sigma, tau, q)
    case FTest(t, _) => tau(t)
  }

  ghost predicate SomeMeaning(env: Env, ts: seq<Filter>, sigma: Valuation, tau: Tests, q: Prefix)
    requires env.Valid()
    decreases ts, 0
  {
    ts != [] && (Meaning(env, ts[0], sigma, tau, q) || SomeMeaning(env, ts[1..], sigma, tau, q))
  }

  ghost predicate EachMeaning(env: Env, ts: seq<Filter>, sigma: Valuation, tau: Tests, q: Prefix)
    requires env.Valid()
    decreases ts, 0
  {
    ts == [] || (Meaning(env, ts[0], sigma, tau, q) && EachMeaning(env, ts[1..], sigma, tau, q))
  }

  ghost predicate Closed(env: Env, sigma: Valuation, tau: Tests)
    requires env.Valid()
  {
    forall n, q: Prefix :: n in env.sets && q.Valid() && Meaning(env, env.sets[n], sigma, tau, q) ==> sigma(n, q)
  }

  /** The least solution of the filter-set equations: what every valuation closed under them has. */
  ghost predicate Lfp(env: Env, tau: Tests, n: string, q: Prefix)
    requires env.Valid()
  {
    forall sigma: Valuation :: Closed(env, sigma, tau) ==> sigma(n, q)
  }

  // ---- the values evaluation computes with ----

  function Full(f: Family): PrefixRange { PrefixRange(Prefix(f, []), 0, Width(f)) }

  /** ANY: the two full ranges, as far as the family allows. */
  function Everything(afi: Afi): (v: Ranges)
    ensures Good(afi, v)
  {
    (if afi.Allows(V4) then {Full(V4)} else {}) + (if afi.Allows(V6) then {Full(V6)} else {})
  }

  lemma EverythingDenotes(afi: Afi, q: Prefix)
    requires q.Valid()
    ensures RangesDenote(Everything(afi), q) <==> afi.Allows(q.family)
  {
    assert Full(q.family).Denotes(q);
    if afi.Allows(q.family) { assert Full(q.family) in Everything(afi); }
  }

  /** putOp of every range of v. */
  function PutOps(afi: Afi, v: Ranges, op: RangeOperator): (w: Ranges)
    requires Good(AfiAny, v)
    ensures Good(afi, w)
  {
    set r | r in v && op.Apply(r).Some? && !op.Apply(r).value.IsEmpty() &&
      afi.Allows(r.prefix.family) :: op.Apply(r).value
  }

  lemma PutOpsDenote(afi: Afi, v: Ranges, op: RangeOperator, q: Prefix)
    requires Good(AfiAny, v) && q.Valid()
    ensures RangesDenote(PutOps(afi, v, op), q) <==> afi.Allows(q.family) && YieldsFrom(v, op, q)
  {
    if RangesDenote(PutOps(afi, v, op), q) {
      var w :| w in PutOps(afi, v, op) && w.Denotes(q);
      var r :| r in v && op.Apply(r).Some? && afi.Allows(r.prefix.family) && op.Apply(r).value == w;
      ApplyDenotesUnion(op, r, q);
      var p: Prefix :| r.Denotes(p) && op.Yields(p, q);
      assert RangesDenote(v, p);
    }
    if afi.Allows(q.family) && YieldsFrom(v, op, q) {
      var p: Prefix :| RangesDenote(v, p) && op.Yields(p, q);
      var r :| r in v && r.Denotes(p);
      YieldedIntro(op, r, p, q);
      ApplyDenotesUnion(op, r, q);
      assert op.Apply(r).value in PutOps(afi, v, op);
    }
  }

  function Listed(afi: Afi, rs: seq<PrefixRange>): Ranges {
    set r | r in rs && !r.IsEmpty() && afi.Allows(r.prefix.family)
  }

  function Lookup(m: map<string, Ranges>, n: string): Ranges { if n in m then m[n] else {} }

  function UnionOf(vs: seq<Ranges>): Ranges { if vs == [] then {} else vs[0] + UnionOf(vs[1..]) }

  /** acc intersected with each of vs in turn. */
  function MeetFrom(acc: Ranges, vs: seq<Ranges>): (v: Ranges)
    requires Good(AfiAny, acc) && forall w :: w in vs ==> Good(AfiAny, w)
    ensures forall afi :: Good(afi, acc) ==> Good(afi, v)
    decreases |vs|
  {
    if vs == [] then acc else
    assert vs[0] in vs && Good(AfiAny, vs[0]);
    assert forall afi :: Good(afi, acc) ==> Good(afi, PairwiseIntersections(acc, vs[0]));
    MeetFrom(PairwiseIntersections(acc, vs[0]), vs[1..])
  }

  /** An AND: its terms' common ranges, or nothing when it has none. */
  function MeetOf(vs: seq<Ranges>): (v: Ranges)
    requires forall w :: w in vs ==> Good(AfiAny, w)
    ensures Good(AfiAny, v) && forall afi :: (vs != [] ==> Good(afi, vs[0])) ==> Good(afi, v)
  {
    if vs == [] then {} else
    assert vs[0] in vs;
    MeetFrom(vs[0], vs[1..])
  }
}
