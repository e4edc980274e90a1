/** Sets as a registry holds them, and what they denote: the least solution of the set equations of
    sections 5.1 and 5.2 of RFC 2622. */
module SetGraphs {
  import opened Prefixes
  import opened OpStacks

  datatype SetClass = ClassAsSet | ClassRouteSet | ClassRtrSet | ClassPeeringSet | ClassFilterSet

  /** Which sets may be members of which (resolve/expander.go:630-642). */
  predicate Nestable(parent: SetClass, child: SetClass) {
    match parent
    case ClassAsSet => child.ClassAsSet?
    case ClassRouteSet => child.ClassRouteSet? || child.ClassAsSet?
    case ClassRtrSet => child.ClassRtrSet?
    case ClassPeeringSet => child.ClassPeeringSet?
    case ClassFilterSet => false
  }

  datatype SetName = SetName(class_: SetClass, text: string) {
    /** The names that stand for the whole registry. */
    predicate IsAny() {
      text == "AS-ANY" || text == "RS-ANY" || text == "RTRS-ANY" || text == "PRNG-ANY" || text == "FLTR-ANY"
    }
  }

  /** A set name, scoped to one registry or ("") not. */
  datatype SetRef = SetRef(source: string, name: SetName)

  datatype Member =
    | MemberPrefixRange(range: PrefixRange)
    | MemberAS(asn: nat, op: RangeOperator)
    | MemberSet(ref: SetRef, op: RangeOperator)

  /** An indirect member: a route object, or an aut-num. */
  datatype Claim = RouteClaim(prefix: Prefix) | AutNumClaim(asn: nat)

  datatype SetObject = SetObject(members: seq<Member>, claims: seq<Claim>) {
    predicate Valid() { forall m :: m in members && m.MemberPrefixRange? ==> m.range.Valid() }
  }

  /** Sets by reference, the routes each AS originates, and the set names left out. */
  datatype Graph = Graph(nodes: map<SetRef, SetObject>, routes: map<nat, seq<Prefix>>, excluded: set<SetName>) {
    predicate Valid() { forall r :: r in nodes ==> nodes[r].Valid() }

    function Routes(asn: nat): seq<Prefix> { if asn in routes then routes[asn] else [] }

    function Members(ref: SetRef): seq<Member> { if ref in nodes then nodes[ref].members else [] }

    function Claims(ref: SetRef): seq<Claim> { if ref in nodes then nodes[ref].claims else [] }

    /** m, listed by ref, is a set that is followed. */
    predicate Follows(ref: SetRef, m: Member) {
      m.MemberSet? && Nestable(ref.name.class_, m.ref.name.class_) && m.ref.name !in excluded && m.ref in nodes
    }
  }

  // ---- what a set denotes ----

  /** q is one of the routes of asn, under op. */
  ghost predicate RouteHas(g: Graph, asn: nat, op: RangeOperator, q: Prefix) {
    exists p :: p in g.Routes(asn) && p.Valid() && op.Yields(p, q)
  }

  const NoOp: RangeOperator := RangeOperator(RangeExact, 0, 0)

  ghost predicate MemberHas(g: Graph, m: Member, q: Prefix) {
    match m
    case MemberPrefixRange(r) => r.Denotes(q)
    case MemberAS(asn, op) => RouteHas(g, asn, op, q)
    case MemberSet(_, _) => false
  }

  ghost predicate ClaimHas(g: Graph, c: Claim, q: Prefix) {
    match c
    case RouteClaim(p) => p.Valid() && q == p
    case AutNumClaim(asn) => RouteHas(g, asn, NoOp, q)
  }

  /** q is in ref by a member or claim of ref's own. */
  ghost predicate OwnHas(g: Graph, ref: SetRef, q: Prefix) {
    (exists m :: m in g.Members(ref) && MemberHas(g, m, q)) || (exists c :: c in g.Claims(ref) && ClaimHas(g, c, q))
  }

  type Valuation = (SetRef, Prefix) -> bool

  /** The right-hand side of ref's equation under v: its own prefixes, and each nested set's under the
      member's operator. */
  ghost predicate Rhs(g: Graph, v: Valuation, ref: SetRef, q: Prefix) {
    OwnHas(g, ref, q) || exists m, p :: m in g.Members(ref) && g.Follows(ref, m) && v(m.ref, p) && m.op.Yields(p, q)
  }

  ghost predicate ClosedUnder(g: Graph, v: Valuation) {
    forall ref, q :: Rhs(g, v, ref, q) ==> v(ref, q)
  }

  /** q is in ref by way of the nested members at path. */
  ghost predicate Derives(g: Graph, ref: SetRef, path: seq<Member>, q: Prefix)
    decreases |path|
  {
    if path == [] then OwnHas(g, ref, q)
    else
      path[0] in g.Members(ref) && g.Follows(ref, path[0]) &&
      exists p :: Derives(g, path[0].ref, path[1..], p) && path[0].op.Yields(p, q)
  }

  /** The least solution. */
  ghost predicate InSet(g: Graph, ref: SetRef, q: Prefix) { exists path :: Derives(g, ref, path, q) }

  lemma InSetIntro(g: Graph, ref: SetRef, m: Member, p: Prefix, q: Prefix)
    requires m in g.Members(ref) && g.Follows(ref, m) && InSet(g, m.ref, p) && m.op.Yields(p, q)
    ensures InSet(g, ref, q)
  {
    var path :| Derives(g, m.ref, path, p);
    assert ([m] + path)[1..] == path;
    assert Derives(g, ref, [m] + path, q);
  }

  lemma {:induction false} DerivesLeast(g: Graph, v: Valuation, ref: SetRef, path: seq<Member>, q: Prefix)
    requires ClosedUnder(g, v) && Derives(g, ref, path, q)
    ensures v(ref, q)
    decreases |path|
  {
    if path != [] {
      var m := path[0];
      var p :| Derives(g, m.ref, path[1..], p) && m.op.Yields(p, q);
      DerivesLeast(g, v, m.ref, path[1..], p);
    }
    assert Rhs(g, v, ref, q);
  }

  /** m, listed by ref, gives ref its routes: an as-set does so to as-sets and route-sets, a route-set to route-sets
      only, and neither when its name is left out or nothing is known of it. */
  predicate Gives(g: Graph, ref: SetRef, m: Member) {
    m.MemberSet? && m.ref in g.nodes && m.ref.name !in g.excluded &&
    var child, parent := m.ref.name.class_, ref.name.class_;
    (child.ClassAsSet? && (parent.ClassAsSet? || parent.ClassRouteSet?)) ||
    (child.ClassRouteSet? && parent.ClassRouteSet?)
  }

  /** The equation of either class of set: its own prefixes, and those of each set that gives it any, under the
      member's operator. */
  lemma {:induction false} SetEquation(g: Graph, ref: SetRef, q: Prefix)
    requires ref.name.class_.ClassAsSet? || ref.name.class_.ClassRouteSet?
    ensures InSet(g, ref, q) <==>
            OwnHas(g, ref, q) ||
            exists m, p :: m in g.Members(ref) && Gives(g, ref, m) && InSet(g, m.ref, p) && m.op.Yields(p, q)
  {
    InSetIsLeastSolution(g, (_, _) => true, ref, q);
    assert forall m :: Gives(g, ref, m) <==> g.Follows(ref, m);
  }

  /** The name that stands for the whole registry, of each class. */
  function AnyName(c: SetClass): string {
    match c
    case ClassAsSet => "AS-ANY"
    case ClassRouteSet => "RS-ANY"
    case ClassRtrSet => "RTRS-ANY"
    case ClassPeeringSet => "PRNG-ANY"
    case ClassFilterSet => "FLTR-ANY"
  }

  lemma {:induction false} AnyNames(n: SetName)
    ensures n.IsAny() <==> exists c :: n.text == AnyName(c)
  {
    if n.IsAny() {
      assert n.text == AnyName(ClassAsSet) || n.text == AnyName(ClassRouteSet) || n.text == AnyName(ClassRtrSet) ||
             n.text == AnyName(ClassPeeringSet) || n.text == AnyName(ClassFilterSet);
    }
  }

  /** InSet solves the equations, and is within every valuation closed under them. */
  lemma InSetIsLeastSolution(g: Graph, v: Valuation, ref: SetRef, q: Prefix)
    ensures InSet(g, ref, q) <==>
            OwnHas(g, ref, q) ||
            exists m, p :: m in g.Members(ref) && g.Follows(ref, m) && InSet(g, m.ref, p) && m.op.Yields(p, q)
    ensures ClosedUnder(g, v) && InSet(g, ref, q) ==> v(ref, q)
  {
    if InSet(g, ref, q) {
      var path: seq<Member> :| Derives(g, ref, path, q);
      if ClosedUnder(g, v) { DerivesLeast(g, v, ref, path, q); }
      if path != [] {
        var m := path[0];
        var p :| Derives(g, m.ref, path[1..], p) && m.op.Yields(p, q);
        assert InSet(g, m.ref, p);
      }
    }
    if OwnHas(g, ref, q) { assert Derives(g, ref, [], q); }
    if m, p :| m in g.Members(ref) && g.Follows(ref, m) && InSet(g, m.ref, p) && m.op.Yields(p, q) {
      InSetIntro(g, ref, m, p, q);
    }
  }

  // ---- stacks and chains of operators ----

  /** q comes from p by ops, the last applied first. */
  ghost predicate Chain(ops: seq<RangeOperator>, p: Prefix, q: Prefix)
    decreases |ops|
  {
    if ops == [] then p == q
    else
      var outer, o := ops[..|ops| - 1], ops[|ops| - 1];
      exists x :: o.Yields(p, x) && Chain(outer, x, q)
  }

  lemma ChainIntro(ops: seq<RangeOperator>, o: RangeOperator, p: Prefix, x: Prefix, q: Prefix)
    requires o.Yields(p, x) && Chain(ops, x, q)
    ensures Chain(ops + [o], p, q)
  {
    assert (ops + [o])[..|ops|] == ops;
  }

  ghost predicate ChainFrom(ops: seq<RangeOperator>, r: PrefixRange, q: Prefix) {
    exists p :: r.Denotes(p) && Chain(ops, p, q)
  }

  ghost predicate StackDenotes(s: OpStack, r: PrefixRange, q: Prefix)
    requires s.Valid() && r.Valid()
  {
    s.Apply(r).Some? && s.Apply(r).value.Denotes(q)
  }

  /** A stack applied to a range denotes what its operators give of each prefix of the range. */
  lemma {:induction false} StackIsChain(ops: seq<RangeOperator>, r: PrefixRange, q: Prefix)
    requires r.Valid() && !r.IsEmpty() && q.Valid()
    ensures StackDenotes(StackOf(ops), r, q) <==> ChainFrom(ops, r, q)
    decreases |ops|
  {
    if ops == [] {
      assert Chain(ops, q, q);
    } else {
      var outer, o := ops[..|ops| - 1], ops[|ops| - 1];
      PushApplies(StackOf(outer), o, r);
      var t := o.Apply(r);
      if t.Some? { StackIsChain(outer, t.value, q); }
      if StackDenotes(StackOf(ops), r, q) {
        var x :| t.value.Denotes(x) && Chain(outer, x, q);
        assert x.Valid() by { ChainValid(outer, x, q); }
        ApplyDenotesUnion(o, r, x);
        var p: Prefix :| r.Denotes(p) && o.Yields(p, x);
        assert Chain(ops, p, q);
      }
      if ChainFrom(ops, r, q) {
        var p :| r.Denotes(p) && Chain(ops, p, q);
        var x :| o.Yields(p, x) && Chain(outer, x, q);
        YieldedIntro(o, r, p, x);
        ApplyDenotesUnion(o, r, x);
        assert ChainFrom(outer, t.value, q);
      }
    }
  }

  lemma {:induction false} ChainValid(ops: seq<RangeOperator>, p: Prefix, q: Prefix)
    requires Chain(ops, p, q) && q.Valid()
    ensures p.Valid() && q.Under(p)
    decreases |ops|
  {
    if ops != [] {
      var outer, o := ops[..|ops| - 1], ops[|ops| - 1];
      var x :| o.Yields(p, x) && Chain(outer, x, q);
      ChainValid(outer, x, q);
    }
  }
}
