/** Set expansion (resolve/expander.go): the depth-first walk over (set, operator stack) states. */
module Expander {
  import opened Prefixes
  import opened OpStacks
  import opened SetGraphs

  /** A set, and what the operators between it and the set expanded do to its ranges. */
  datatype State = State(ref: SetRef, ops: OpStack)

  /** What add records for r: None when the operators delete it or its family is not wanted. */
  function Added(afi: Afi, ops: OpStack, r: PrefixRange): (x: Option<PrefixRange>)
    requires ops.Valid() && r.Valid()
  {
    var t := ops.Apply(r);
    if t.None? || !afi.Allows(t.value.prefix.family) then None else t
  }

  ghost predicate RouteAdds(afi: Afi, routes: seq<Prefix>, ops: OpStack, x: PrefixRange)
    requires ops.Valid()
  {
    exists p :: p in routes && p.Valid() && Added(afi, ops, Exact(p)) == Some(x)
  }

  ghost predicate MemberAdds(g: Graph, afi: Afi, ops: OpStack, m: Member, x: PrefixRange)
    requires ops.Valid()
  {
    match m
    case MemberPrefixRange(r) => r.Valid() && Added(afi, ops, r) == Some(x)
    case MemberAS(asn, op) => RouteAdds(afi, g.Routes(asn), Push(ops, op), x)
    case MemberSet(_, _) => false
  }

  ghost predicate ClaimAdds(g: Graph, afi: Afi, ops: OpStack, c: Claim, x: PrefixRange)
    requires ops.Valid()
  {
    match c
    case RouteClaim(p) => RouteAdds(afi, [p], ops, x)
    case AutNumClaim(asn) => RouteAdds(afi, g.Routes(asn), ops, x)
  }

  ghost predicate MembersAdd(g: Graph, afi: Afi, ops: OpStack, ms: seq<Member>, x: PrefixRange)
    requires ops.Valid()
  {
    exists m :: m in ms && MemberAdds(g, afi, ops, m, x)
  }

  ghost predicate ClaimsAdd(g: Graph, afi: Afi, ops: OpStack, cs: seq<Claim>, x: PrefixRange)
    requires ops.Valid()
  {
    exists c :: c in cs && ClaimAdds(g, afi, ops, c, x)
  }

  /** The ranges a state records itself. */
  ghost predicate StateAdds(g: Graph, afi: Afi, s: State, x: PrefixRange) {
    s.ops.Valid() && (MembersAdd(g, afi, s.ops, g.Members(s.ref), x) || ClaimsAdd(g, afi, s.ops, g.Claims(s.ref), x))
  }

  ghost predicate AnyStateAdds(g: Graph, afi: Afi, ss: set<State>, x: PrefixRange) {
    exists s :: s in ss && StateAdds(g, afi, s, x)
  }

  /** The state a followed member leads to. */
  function Next(s: State, m: Member): State
    requires m.MemberSet? && s.ops.Valid()
  {
    State(m.ref, Push(s.ops, m.op))
  }

  /** Every state that members ms of s lead to is in ss. */
  ghost predicate LeadsInto(g: Graph, s: State, ms: seq<Member>, ss: set<State>) {
    s.ops.Valid() && forall m :: m in ms && g.Follows(s.ref, m) ==> Next(s, m) in ss
  }

  /** after is before and states all of whose next states it has. */
  ghost predicate Grown(g: Graph, before: set<State>, after: set<State>) {
    before <= after && forall s :: s in after - before ==> LeadsInto(g, s, g.Members(s.ref), after)
  }

  // ---- reachable states ----

  datatype Edge = Edge(from: SetRef, member: Member)

  /** es leads from top to ref, each edge a followed member. */
  ghost predicate Leads(g: Graph, top: SetRef, es: seq<Edge>, ref: SetRef)
    decreases |es|
  {
    if es == [] then ref == top
    else
      var e := es[|es| - 1];
      Leads(g, top, es[..|es| - 1], e.from) && e.member in g.Members(e.from) && g.Follows(e.from, e.member) &&
        e.member.ref == ref
  }

  function Ops(es: seq<Edge>): (ops: seq<RangeOperator>)
    requires forall e :: e in es ==> e.member.MemberSet?
    ensures |ops| == |es|
  {
    if es == [] then [] else Ops(es[..|es| - 1]) + [es[|es| - 1].member.op]
  }

  ghost predicate ReachedBy(g: Graph, top: SetRef, s: State, es: seq<Edge>) {
    Leads(g, top, es, s.ref) && (forall e :: e in es ==> e.member.MemberSet?) && s.ops == StackOf(Ops(es))
  }

  ghost predicate Reached(g: Graph, top: SetRef, s: State) { exists es :: ReachedBy(g, top, s, es) }

  lemma OpsAppend(es: seq<Edge>, e: Edge)
    requires (forall d :: d in es ==> d.member.MemberSet?) && e.member.MemberSet?
    ensures Ops(es + [e]) == Ops(es) + [e.member.op]
  {
    assert (es + [e])[..|es|] == es;
  }

  lemma LeadsAppend(g: Graph, top: SetRef, es: seq<Edge>, e: Edge)
    requires Leads(g, top, es, e.from) && e.member in g.Members(e.from) && g.Follows(e.from, e.member)
    ensures Leads(g, top, es + [e], e.member.ref)
  {
    assert (es + [e])[..|es|] == es;
  }

  lemma ReachedNext(g: Graph, top: SetRef, s: State, m: Member)
    requires Reached(g, top, s) && m in g.Members(s.ref) && g.Follows(s.ref, m)
    ensures s.ops.Valid() && Reached(g, top, Next(s, m))
  {
    var es :| ReachedBy(g, top, s, es);
    var e := Edge(s.ref, m);
    LeadsAppend(g, top, es, e);
    OpsAppend(es, e);
    StackOfAppend(Ops(es), m.op);
    assert ReachedBy(g, top, Next(s, m), es + [e]);
  }

  ghost predicate AllReached(g: Graph, top: SetRef, ss: set<State>) { forall s :: s in ss ==> Reached(g, top, s) }

  /** Finitely many states: the fetched sets, under every table. */
  function Universe(g: Graph): set<State> {
    set r, o | r in g.nodes.Keys && o in AllStacks() :: State(r, o)
  }

  /** u has every state of g. */
  ghost predicate HasStates(g: Graph, u: set<State>) { forall s: State :: s.ref in g.nodes && s.ops.Valid() ==> s in u }

  lemma UniverseHasStates(g: Graph) returns (u: set<State>)
    ensures HasStates(g, u)
  {
    u := Universe(g);
    forall s: State | s.ref in g.nodes && s.ops.Valid() ensures s in u {
      AllStacksComplete(s.ops);
    }
  }

  // ---- the walk ----

  class Evaluator {
    const g: Graph
    const top: SetRef
    const afi: Afi
    ghost const states: set<State> // finitely many, every state of g among them
    var done: set<State>
    var out: set<PrefixRange>

    constructor (g: Graph, top: SetRef, afi: Afi, ghost states: set<State>)
      ensures this.g == g && this.top == top && this.afi == afi && this.states == states && done == {} && out == {}
    {
      this.g, this.top, this.afi, this.states := g, top, afi, states;
      done, out := {}, {};
    }

    method Add(r: PrefixRange, ops: OpStack)
      requires ops.Valid() && r.Valid()
      modifies this`out
      ensures forall x :: x in out <==> x in old(out) || Added(afi, ops, r) == Some(x)
    {
      var x := ops.Apply(r);
      if x.Some? && afi.Allows(x.value.prefix.family) {
        out := out + {x.value};
      }
    }

    method AddRoutes(routes: seq<Prefix>, ops: OpStack)
      requires ops.Valid()
      modifies this`out
      ensures forall x :: x in out <==> x in old(out) || RouteAdds(afi, routes, ops, x)
    {
      for i := 0 to |routes|
        invariant forall x :: x in out <==> x in old(out) || RouteAdds(afi, routes[..i], ops, x)
      {
        assert routes[..i + 1] == routes[..i] + [routes[i]];
        if routes[i].Valid() {
          Add(Exact(routes[i]), ops);
        }
      }
      assert routes[..|routes|] == routes;
    }

    method AddClaims(cs: seq<Claim>, ops: OpStack)
      requires ops.Valid()
      modifies this`out
      ensures forall x :: x in out <==> x in old(out) || ClaimsAdd(g, afi, ops, cs, x)
    {
      for i := 0 to |cs|
        invariant forall x :: x in out <==> x in old(out) || ClaimsAdd(g, afi, ops, cs[..i], x)
      {
        ClaimsAddLast(g, afi, ops, cs[..i], cs[i]);
        assert cs[..i + 1] == cs[..i] + [cs[i]];
        AddClaim(cs[i], ops);
      }
      assert cs[..|cs|] == cs;
    }

    method AddClaim(c: Claim, ops: OpStack)
      requires ops.Valid()
      modifies this`out
      ensures forall x :: x in out <==> x in old(out) || ClaimAdds(g, afi, ops, c, x)
    {
      match c
      case RouteClaim(p) => AddRoutes([p], ops);
      case AutNumClaim(asn) => AddRoutes(g.Routes(asn), ops);
    }

    /** Walks a state not yet walked, and whatever it leads to: the states added are all reachable,
        each with its next states, and out gains exactly what they record. */
    method Walk(ref: SetRef, ops: OpStack)
      requires g.Valid() && HasStates(g, states) && ref in g.nodes && State(ref, ops) !in done
      requires done <= states && AllReached(g, top, done) && Reached(g, top, State(ref, ops)) && ops.Valid()
      modifies this
      ensures done <= states && AllReached(g, top, done)
      ensures State(ref, ops) in done && Grown(g, old(done), done)
      ensures forall x :: x in out <==> x in old(out) || AnyStateAdds(g, afi, done - old(done), x)
      decreases states - done, 0
    {
      var st := State(ref, ops);
      done := done + {st};
      ghost var base := done;
      WalkMembers(st);
      AddClaims(g.Claims(ref), ops);
      JoinSelf(g, afi, st, old(done), base, done);
    }

    /** The members of the state st being walked, in order. */
    method WalkMembers(st: State)
      requires g.Valid() && HasStates(g, states) && st in done && st.ops.Valid() && done <= states
      requires AllReached(g, top, done)
      modifies this
      ensures done <= states && AllReached(g, top, done) && Grown(g, old(done), done)
      ensures LeadsInto(g, st, g.Members(st.ref), done)
      ensures Recorded(g, afi, st.ops, old(out), done - old(done), g.Members(st.ref), out)
      decreases states - done, 3
    {
      var ms := g.Members(st.ref);
      ghost var base := done;
      for i := 0 to |ms|
        invariant done <= states && AllReached(g, top, done) && Grown(g, base, done)
        invariant LeadsInto(g, st, ms[..i], done)
        invariant Recorded(g, afi, st.ops, old(out), done - base, ms[..i], out)
      {
        assert ms[..i + 1] == ms[..i] + [ms[i]];
        WalkNext(st, ms[..i], ms[i], base, old(out));
      }
      assert ms[..|ms|] == ms;
    }

    /** The member after those walked since the states were base and the ranges out0. */
    method WalkNext(st: State, ghost walked: seq<Member>, m: Member, ghost base: set<State>,
                    ghost out0: set<PrefixRange>)
      requires g.Valid() && HasStates(g, states) && m in g.Members(st.ref) && st in done && st.ops.Valid()
      requires done <= states && AllReached(g, top, done) && Grown(g, base, done) && base <= done
      requires LeadsInto(g, st, walked, done) && Recorded(g, afi, st.ops, out0, done - base, walked, out)
      modifies this
      ensures done <= states && AllReached(g, top, done) && Grown(g, base, done) && old(done) <= done
      ensures LeadsInto(g, st, walked + [m], done) && Recorded(g, afi, st.ops, out0, done - base, walked + [m], out)
      decreases states - done, 2
    {
      ghost var before, out1 := done, out;
      WalkMember(st, m);
      GrownTransitive(g, base, before, done);
      OutStep(g, afi, st.ops, base, before, done, walked, m, out0, out1, out);
    }

    /** One member of the state st being walked. */
    method WalkMember(st: State, m: Member)
      requires g.Valid() && HasStates(g, states) && m in g.Members(st.ref) && st in done && st.ops.Valid()
      requires done <= states && AllReached(g, top, done)
      modifies this
      ensures done <= states && AllReached(g, top, done) && Grown(g, old(done), done)
      ensures g.Follows(st.ref, m) ==> Next(st, m) in done
      ensures Recorded(g, afi, st.ops, old(out), done - old(done), [m], out)
      decreases states - done, 1
    {
      MembersAddLast(g, afi, st.ops, [], m);
      assert [] + [m] == [m] && done - done == {};
      match m
      case MemberPrefixRange(r) =>
        assert g.nodes[st.ref].Valid();
        Add(r, st.ops);
      case MemberAS(asn, op) => AddRoutes(g.Routes(asn), Push(st.ops, op));
      case MemberSet(child, op) =>
        if g.Follows(st.ref, m) {
          var next := Push(st.ops, op);
          if State(child, next) !in done {
            ReachedNext(g, top, st, m);
            Walk(child, next);
          }
        }
    }
  }

  lemma MembersAddLast(g: Graph, afi: Afi, ops: OpStack, ms: seq<Member>, m: Member)
    requires ops.Valid()
    ensures forall x :: MembersAdd(g, afi, ops, ms + [m], x) <==>
            MembersAdd(g, afi, ops, ms, x) || MemberAdds(g, afi, ops, m, x)
  {
    forall x
      ensures MembersAdd(g, afi, ops, ms + [m], x) <==> MembersAdd(g, afi, ops, ms, x) || MemberAdds(g, afi, ops, m, x)
    {
      assert m in ms + [m];
      if MembersAdd(g, afi, ops, ms, x) {
        var n :| n in ms && MemberAdds(g, afi, ops, n, x);
        assert n in ms + [m];
      }
    }
  }

  /** out1 is out0, what the states ss record and what members ms give under ops. */
  ghost predicate Recorded(g: Graph, afi: Afi, ops: OpStack, out0: set<PrefixRange>, ss: set<State>, ms: seq<Member>,
                           out1: set<PrefixRange>) {
    ops.Valid() && forall x :: x in out1 <==> x in out0 || AnyStateAdds(g, afi, ss, x) || MembersAdd(g, afi, ops, ms, x)
  }

  /** What is recorded up to one member, and by it, is what is recorded up to the next. */
  lemma OutStep(g: Graph, afi: Afi, ops: OpStack, base: set<State>, before: set<State>, after: set<State>,
                ms: seq<Member>, m: Member, out0: set<PrefixRange>, out1: set<PrefixRange>, out2: set<PrefixRange>)
    requires ops.Valid() && base <= before <= after
    requires Recorded(g, afi, ops, out0, before - base, ms, out1)
    requires Recorded(g, afi, ops, out1, after - before, [m], out2)
    ensures Recorded(g, afi, ops, out0, after - base, ms + [m], out2)
  {
    MembersAddLast(g, afi, ops, ms, m);
    MembersAddLast(g, afi, ops, [], m);
    assert [] + [m] == [m];
    AnyStateAddsUnion(g, afi, before - base, after - before);
    assert after - base == (before - base) + (after - before);
  }

  lemma ClaimsAddLast(g: Graph, afi: Afi, ops: OpStack, cs: seq<Claim>, c: Claim)
    requires ops.Valid()
    ensures forall x :: ClaimsAdd(g, afi, ops, cs + [c], x) <==>
            ClaimsAdd(g, afi, ops, cs, x) || ClaimAdds(g, afi, ops, c, x)
  {
    forall x
      ensures ClaimsAdd(g, afi, ops, cs + [c], x) <==> ClaimsAdd(g, afi, ops, cs, x) || ClaimAdds(g, afi, ops, c, x)
    {
      assert c in cs + [c];
      if ClaimsAdd(g, afi, ops, cs, x) {
        var d :| d in cs && ClaimAdds(g, afi, ops, d, x);
        assert d in cs + [c];
      }
    }
  }

  lemma GrownTransitive(g: Graph, a: set<State>, b: set<State>, c: set<State>)
    requires Grown(g, a, b) && Grown(g, b, c)
    ensures Grown(g, a, c)
  {
    forall s | s in c - a ensures LeadsInto(g, s, g.Members(s.ref), c) {
      if s in b { assert s in b - a; } else { assert s in c - b; }
    }
  }

  lemma AnyStateAddsUnion(g: Graph, afi: Afi, a: set<State>, b: set<State>)
    ensures forall x :: AnyStateAdds(g, afi, a + b, x) <==> AnyStateAdds(g, afi, a, x) || AnyStateAdds(g, afi, b, x)
  {
    forall x ensures AnyStateAdds(g, afi, a + b, x) <==> AnyStateAdds(g, afi, a, x) || AnyStateAdds(g, afi, b, x) {
      if AnyStateAdds(g, afi, a, x) {
        var s :| s in a && StateAdds(g, afi, s, x);
        assert s in a + b;
      }
      if AnyStateAdds(g, afi, b, x) {
        var s :| s in b && StateAdds(g, afi, s, x);
        assert s in a + b;
      }
    }
  }

  /** A walked state together with the states walked under it. */
  lemma JoinSelf(g: Graph, afi: Afi, st: State, before: set<State>, base: set<State>, after: set<State>)
    requires base == before + {st} && st !in before && Grown(g, base, after)
    requires LeadsInto(g, st, g.Members(st.ref), after)
    ensures Grown(g, before, after)
    ensures forall x :: AnyStateAdds(g, afi, after - before, x) <==>
            AnyStateAdds(g, afi, after - base, x) || StateAdds(g, afi, st, x)
  {
    assert after - before == {st} + (after - base);
    AnyStateAddsUnion(g, afi, {st}, after - base);
    assert st in {st};
  }

  // ---- what the walk computes ----

  /** If a set n reached along es holds p, and the operators of es give q of p, then top holds q. */
  lemma {:induction false} BackAlong(g: Graph, top: SetRef, es: seq<Edge>, n: SetRef, p: Prefix, q: Prefix)
    requires Leads(g, top, es, n) && (forall e :: e in es ==> e.member.MemberSet?)
    requires InSet(g, n, p) && Chain(Ops(es), p, q)
    ensures InSet(g, top, q)
    decreases |es|
  {
    if es != [] {
      var init, e := es[..|es| - 1], es[|es| - 1];
      var x := ChainLast(Ops(init), e.member.op, p, q);
      InSetIntro(g, e.from, e.member, p, x);
      BackAlong(g, top, init, e.from, x, q);
    }
  }

  /** A range recorded by a state comes from a prefix the state's own set has. */
  lemma OwnOfAdds(g: Graph, afi: Afi, s: State, ops: seq<RangeOperator>, x: PrefixRange, q: Prefix) returns (p: Prefix)
    requires s.ops == StackOf(ops) && StateAdds(g, afi, s, x) && x.Denotes(q) && q.Valid()
    ensures OwnHas(g, s.ref, p) && Chain(ops, p, q) && afi.Allows(q.family)
  {
    if MembersAdd(g, afi, s.ops, g.Members(s.ref), x) {
      var m :| m in g.Members(s.ref) && MemberAdds(g, afi, s.ops, m, x);
      match m
      case MemberPrefixRange(r) =>
        StackIsChain(ops, r, q);
        p :| r.Denotes(p) && Chain(ops, p, q);
        assert MemberHas(g, m, p);
      case MemberAS(asn, op) =>
        p := OwnOfRoute(g, afi, ops, asn, op, x, q);
        assert MemberHas(g, m, p);
    } else {
      var c :| c in g.Claims(s.ref) && ClaimAdds(g, afi, s.ops, c, x);
      p := OwnOfClaim(g, afi, s, ops, c, x, q);
    }
  }

  lemma OwnOfClaim(g: Graph, afi: Afi, s: State, ops: seq<RangeOperator>, c: Claim, x: PrefixRange, q: Prefix)
    returns (p: Prefix)
    requires s.ops == StackOf(ops) && ClaimAdds(g, afi, s.ops, c, x) && x.Denotes(q) && q.Valid()
    ensures ClaimHas(g, c, p) && Chain(ops, p, q) && afi.Allows(q.family)
  {
    var routes := if c.RouteClaim? then [c.prefix] else g.Routes(c.asn);
    p :| p in routes && p.Valid() && Added(afi, s.ops, Exact(p)) == Some(x);
    StackIsChain(ops, Exact(p), q);
    assert NoOp.Yields(p, p);
  }

  lemma OwnOfRoute(g: Graph, afi: Afi, ops: seq<RangeOperator>, asn: nat, op: RangeOperator, x: PrefixRange, q: Prefix)
    returns (p: Prefix)
    requires q.Valid() && RouteAdds(afi, g.Routes(asn), Push(StackOf(ops), op), x) && x.Denotes(q)
    ensures RouteHas(g, asn, op, p) && Chain(ops, p, q) && afi.Allows(q.family)
  {
    var route :| route in g.Routes(asn) && route.Valid() && Added(afi, Push(StackOf(ops), op), Exact(route)) == Some(x);
    StackOfAppend(ops, op);
    StackIsChain(ops + [op], Exact(route), q);
    p := ChainLast(ops, op, route, q);
  }

  lemma ChainLast(ops: seq<RangeOperator>, op: RangeOperator, route: Prefix, q: Prefix) returns (p: Prefix)
    requires Chain(ops + [op], route, q)
    ensures op.Yields(route, p) && Chain(ops, p, q)
  {
    assert (ops + [op])[..|ops|] == ops;
    p :| op.Yields(route, p) && Chain(ops, p, q);
  }

  /** What a state's own set has, the state records under its operators. */
  lemma AddsOfOwn(g: Graph, afi: Afi, s: State, ops: seq<RangeOperator>, p: Prefix, q: Prefix) returns (x: PrefixRange)
    requires g.Valid() && s.ops == StackOf(ops) && OwnHas(g, s.ref, p) && Chain(ops, p, q) && q.Valid()
    requires afi.Allows(q.family)
    ensures StateAdds(g, afi, s, x) && x.Denotes(q)
  {
    if m :| m in g.Members(s.ref) && MemberHas(g, m, p) {
      match m
      case MemberPrefixRange(r) =>
        assert g.nodes[s.ref].Valid();
        x := AddsOfRange(afi, ops, r, p, q);
        assert MemberAdds(g, afi, s.ops, m, x);
      case MemberAS(asn, op) =>
        var route :| route in g.Routes(asn) && route.Valid() && op.Yields(route, p);
        var ops' := ops + [op];
        ChainIntro(ops, op, route, p, q);
        StackOfAppend(ops, op);
        x := AddsOfRange(afi, ops', Exact(route), route, q);
        assert MemberAdds(g, afi, s.ops, m, x);
    } else {
      var c :| c in g.Claims(s.ref) && ClaimHas(g, c, p);
      x := AddsOfRange(afi, ops, Exact(p), p, q) by { ChainValid(ops, p, q); }
      if c.AutNumClaim? {
        var route :| route in g.Routes(c.asn) && route.Valid() && NoOp.Yields(route, p);
        assert RouteAdds(afi, g.Routes(c.asn), s.ops, x);
      } else {
        assert p in [c.prefix];
      }
      assert ClaimAdds(g, afi, s.ops, c, x);
    }
  }

  lemma AddsOfRange(afi: Afi, ops: seq<RangeOperator>, r: PrefixRange, p: Prefix, q: Prefix) returns (x: PrefixRange)
    requires r.Valid() && r.Denotes(p) && Chain(ops, p, q) && q.Valid() && afi.Allows(q.family)
    ensures Added(afi, StackOf(ops), r) == Some(x) && x.Denotes(q)
  {
    StackIsChain(ops, r, q);
    x := StackOf(ops).Apply(r).value;
  }

  /** From any walked state, what is in its set by way of path is recorded. */
  lemma {:induction false} ForwardAlong(g: Graph, afi: Afi, done: set<State>, s: State, ops: seq<RangeOperator>,
                                        path: seq<Member>, p: Prefix, q: Prefix)
    returns (x: PrefixRange)
    requires g.Valid() && Grown(g, {}, done) && s in done && s.ops == StackOf(ops)
    requires Derives(g, s.ref, path, p) && Chain(ops, p, q) && q.Valid() && afi.Allows(q.family)
    ensures AnyStateAdds(g, afi, done, x) && x.Denotes(q)
    decreases |path|
  {
    if path == [] {
      x := AddsOfOwn(g, afi, s, ops, p, q);
    } else {
      var m := path[0];
      var p' :| Derives(g, m.ref, path[1..], p') && m.op.Yields(p', p);
      ChainIntro(ops, m.op, p', p, q);
      var ops' := ops + [m.op];
      StackOfAppend(ops, m.op);
      assert s in done - {};
      x := ForwardAlong(g, afi, done, Next(s, m), ops', path[1..], p', q);
    }
  }

  /** Every range the walk records denotes prefixes of the least solution only. */
  lemma WalkSound(g: Graph, top: SetRef, afi: Afi, s: State, x: PrefixRange, q: Prefix)
    requires Reached(g, top, s) && StateAdds(g, afi, s, x) && x.Denotes(q) && q.Valid()
    ensures afi.Allows(q.family) && InSet(g, top, q)
  {
    var es :| ReachedBy(g, top, s, es);
    var p := OwnOfAdds(g, afi, s, Ops(es), x, q);
    assert Derives(g, s.ref, [], p);
    BackAlong(g, top, es, s.ref, p, q);
  }

  /** Every prefix of the least solution is denoted by a range the walk records. */
  lemma WalkComplete(g: Graph, top: SetRef, afi: Afi, done: set<State>, q: Prefix) returns (x: PrefixRange)
    requires g.Valid() && Grown(g, {}, done) && State(top, EmptyStack()) in done
    requires q.Valid() && afi.Allows(q.family) && InSet(g, top, q)
    ensures AnyStateAdds(g, afi, done, x) && x.Denotes(q)
  {
    var path :| Derives(g, top, path, q);
    x := ForwardAlong(g, afi, done, State(top, EmptyStack()), [], path, q, q);
  }

  /** The walk from top computes the least solution at top, restricted to the address family: it
      terminates on every graph, cycles through operators included, and its result, the set of
      prefixes it denotes, does not depend on the order members are listed in. */
  method ExpandRanges(g: Graph, top: SetRef, afi: Afi) returns (out: set<PrefixRange>)
    requires g.Valid() && top in g.nodes
    ensures forall q: Prefix :: q.Valid() ==> (RangesDenote(out, q) <==> afi.Allows(q.family) && InSet(g, top, q))
  {
    ghost var states := UniverseHasStates(g);
    var v := new Evaluator(g, top, afi, states);
    assert ReachedBy(g, top, State(top, EmptyStack()), []);
    v.Walk(top, EmptyStack());
    out := v.out;
    ghost var done := v.done;
    assert done - {} == done;
    assert forall x :: x in out <==> AnyStateAdds(g, afi, done, x);
    forall q: Prefix | q.Valid() ensures RangesDenote(out, q) <==> afi.Allows(q.family) && InSet(g, top, q) {
      if x :| x in out && x.Denotes(q) {
        var s :| s in done && StateAdds(g, afi, s, x);
        WalkSound(g, top, afi, s, x, q);
      }
      if afi.Allows(q.family) && InSet(g, top, q) {
        var x := WalkComplete(g, top, afi, done, q);
      }
    }
  }
}
