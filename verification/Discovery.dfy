/** Breadth-first discovery of the sets reachable from one (resolve/expander.go:318-414), and set
    expansion over a whole registry. */
module Discovery {
  import opened Prefixes
  import opened SetGraphs
  import opened Expander

  /** The sets a fetched set points to, among those its class may list and not left out. */
  function Nested(reg: Graph, ref: SetRef): set<SetRef> {
    set m | m in reg.Members(ref) && m.MemberSet? && Nestable(ref.name.class_, m.ref.name.class_) &&
      m.ref.name !in reg.excluded :: m.ref
  }

  /** The references of the members ms of ref that nestedRefs keeps and Exclude does not drop. */
  predicate Points(reg: Graph, ref: SetRef, m: Member) {
    m.MemberSet? && Nestable(ref.name.class_, m.ref.name.class_) && m.ref.name !in reg.excluded
  }

  lemma NestedIff(reg: Graph, ref: SetRef, r: SetRef)
    ensures r in Nested(reg, ref) <==> exists m :: m in reg.Members(ref) && Points(reg, ref, m) && m.ref == r
  {
  }

  /** trail goes from top to ref, each step to a nested set of a set the registry has. */
  ghost predicate Trail(reg: Graph, top: SetRef, trail: seq<SetRef>, ref: SetRef)
    decreases |trail|
  {
    if trail == [] then ref == top
    else
      var prev := trail[|trail| - 1];
      Trail(reg, top, trail[..|trail| - 1], prev) && prev in reg.nodes && !prev.name.IsAny() && ref in Nested(reg, prev)
  }

  ghost predicate Reachable(reg: Graph, top: SetRef, ref: SetRef) { exists trail :: Trail(reg, top, trail, ref) }

  lemma ReachableNested(reg: Graph, top: SetRef, prev: SetRef, ref: SetRef)
    requires Reachable(reg, top, prev) && prev in reg.nodes && !prev.name.IsAny() && ref in Nested(reg, prev)
    ensures Reachable(reg, top, ref)
  {
    var trail :| Trail(reg, top, trail, prev);
    assert (trail + [prev])[..|trail|] == trail;
    assert Trail(reg, top, trail + [prev], ref);
  }

  lemma {:induction false} TrailStaysIn(reg: Graph, top: SetRef, seen: set<SetRef>, trail: seq<SetRef>, ref: SetRef)
    requires top in seen && Trail(reg, top, trail, ref)
    requires forall r :: r in seen && r in reg.nodes && !r.name.IsAny() ==> Nested(reg, r) <= seen
    ensures ref in seen
    decreases |trail|
  {
    if trail != [] {
      TrailStaysIn(reg, top, seen, trail[..|trail| - 1], trail[|trail| - 1]);
    }
  }

  /** Every reference the registry's sets mention, and top. */
  function Mentioned(reg: Graph, top: SetRef): set<SetRef> {
    {top} + set r, m | r in reg.nodes.Keys && m in reg.Members(r) && m.MemberSet? :: m.ref
  }

  datatype Outcome =
    | Discovered(nodes: set<SetRef>, missing: set<SetRef>)
    | TopNotFound
    | AnySet(name: SetName)

  function Elems(s: seq<SetRef>): set<SetRef> { set r | r in s }

  lemma ElemsStep(s: seq<SetRef>, i: nat)
    requires i < |s|
    ensures Elems(s[i..]) == {s[i]} + Elems(s[i + 1..]) && Elems(s[..i + 1]) == Elems(s[..i]) + {s[i]}
  {
    assert s[i..] == [s[i]] + s[i + 1..] && s[..i + 1] == s[..i] + [s[i]];
  }

  function Plain(s: set<SetRef>): set<SetRef> { set r | r in s && !r.name.IsAny() }

  function Anys(s: set<SetRef>): set<SetRef> { set r | r in s && r.name.IsAny() }

  /** The references of one fetched set: those not seen before join the next level, but for the names
      that stand for the whole registry. */
  method Follow(reg: Graph, n: SetRef, seen: set<SetRef>, next: seq<SetRef>, any: set<SetRef>)
    returns (seen': set<SetRef>, next': seq<SetRef>, any': set<SetRef>)
    ensures seen' == seen + Nested(reg, n)
    ensures Elems(next') == Elems(next) + Plain(Nested(reg, n) - seen)
    ensures any' == any + Anys(Nested(reg, n) - seen)
  {
    seen', next', any' := seen, next, any;
    var ms := reg.Members(n);
    ghost var got: set<SetRef> := {};
    for i := 0 to |ms|
      invariant got == set m | m in ms[..i] && Points(reg, n, m) :: m.ref
      invariant seen' == seen + got
      invariant Elems(next') == Elems(next) + Plain(got - seen)
      invariant any' == any + Anys(got - seen)
    {
      var m := ms[i];
      assert ms[..i + 1] == ms[..i] + [m];
      if Points(reg, n, m) {
        Joins(got, seen, m.ref);
        got := got + {m.ref};
        if m.ref !in seen' {
          seen' := seen' + {m.ref};
          if m.ref.name.IsAny() {
            any' := any' + {m.ref};
          } else {
            ElemsSnoc(next', m.ref);
            next' := next' + [m.ref];
          }
        }
      }
    }
    assert ms[..|ms|] == ms;
    assert got == Nested(reg, n);
  }

  lemma ElemsSnoc(s: seq<SetRef>, r: SetRef)
    ensures Elems(s + [r]) == Elems(s) + {r}
  {
  }

  /** What one more reference adds to those not seen before. */
  lemma Joins(got: set<SetRef>, seen: set<SetRef>, r: SetRef)
    ensures r in seen ==> Plain(got + {r} - seen) == Plain(got - seen) && Anys(got + {r} - seen) == Anys(got - seen)
    ensures r !in seen && r.name.IsAny() ==>
            Plain(got + {r} - seen) == Plain(got - seen) && Anys(got + {r} - seen) == Anys(got - seen) + {r}
    ensures r !in seen && !r.name.IsAny() ==>
            Plain(got + {r} - seen) == Plain(got - seen) + {r} && Anys(got + {r} - seen) == Anys(got - seen)
  {
  }

  /** What holds between levels: seen is what is processed, what is next and what stands for the whole
      registry; everything seen is reachable; every fetched set's references are seen. */
  ghost predicate Between(reg: Graph, top: SetRef, seen: set<SetRef>, nodes: set<SetRef>, missing: set<SetRef>,
                          any: set<SetRef>, pending: set<SetRef>) {
    Shared(reg, seen, nodes, missing, any, pending) && Followed(reg, top, seen, nodes)
  }

  /** seen is shared out by what is known of each. */
  ghost predicate Shared(reg: Graph, seen: set<SetRef>, nodes: set<SetRef>, missing: set<SetRef>, any: set<SetRef>,
                         pending: set<SetRef>) {
    && seen == nodes + missing + any + pending
    && nodes == Plain(nodes) && missing == Plain(missing) && pending == Plain(pending) && any == Anys(any)
    && nodes <= reg.nodes.Keys && missing !! reg.nodes.Keys
  }

  ghost predicate Followed(reg: Graph, top: SetRef, seen: set<SetRef>, nodes: set<SetRef>) {
    && top in seen && seen <= Mentioned(reg, top)
    && (forall r :: r in seen ==> Reachable(reg, top, r))
    && (forall r :: r in nodes ==> Nested(reg, r) <= seen)
  }

  lemma BetweenFound(reg: Graph, top: SetRef, seen: set<SetRef>, nodes: set<SetRef>, missing: set<SetRef>,
                     any: set<SetRef>, pending: set<SetRef>, n: SetRef, left: set<SetRef>)
    requires Between(reg, top, seen, nodes, missing, any, pending) && n in pending && n in reg.nodes
    requires pending - {n} <= left <= pending
    ensures var new_ := Nested(reg, n) - seen;
            Between(reg, top, seen + Nested(reg, n), nodes + {n}, missing, any + Anys(new_), left + Plain(new_))
  {
    FollowedFound(reg, top, seen, nodes, n);
    SharedFound(reg, seen, nodes, missing, any, pending, n, left, Nested(reg, n));
  }

  lemma FollowedFound(reg: Graph, top: SetRef, seen: set<SetRef>, nodes: set<SetRef>, n: SetRef)
    requires Followed(reg, top, seen, nodes) && n in seen && n in reg.nodes && !n.name.IsAny()
    ensures Followed(reg, top, seen + Nested(reg, n), nodes + {n})
  {
    forall r | r in Nested(reg, n) ensures Reachable(reg, top, r) && r in Mentioned(reg, top) {
      ReachableNested(reg, top, n, r);
    }
  }

  lemma SharedFound(reg: Graph, seen: set<SetRef>, nodes: set<SetRef>, missing: set<SetRef>, any: set<SetRef>,
                    pending: set<SetRef>, n: SetRef, left: set<SetRef>, found: set<SetRef>)
    requires Shared(reg, seen, nodes, missing, any, pending) && n in pending && n in reg.nodes
    requires pending - {n} <= left <= pending
    ensures Shared(reg, seen + found, nodes + {n}, missing, any + Anys(found - seen), left + Plain(found - seen))
  {
    var new_ := found - seen;
    assert new_ == Anys(new_) + Plain(new_);
    assert seen + found == seen + new_;
  }

  lemma BetweenMissing(reg: Graph, top: SetRef, seen: set<SetRef>, nodes: set<SetRef>, missing: set<SetRef>,
                       any: set<SetRef>, pending: set<SetRef>, n: SetRef, left: set<SetRef>)
    requires Between(reg, top, seen, nodes, missing, any, pending) && n in pending && n !in reg.nodes
    requires pending - {n} <= left <= pending
    ensures Between(reg, top, seen, nodes, missing + {n}, any, left)
  {
  }

  /** One level: each set of it is fetched or missing, and the references first seen on it are next. */
  method Level(reg: Graph, top: SetRef, level: seq<SetRef>, seen: set<SetRef>, nodes: set<SetRef>, missing: set<SetRef>)
    returns (seen': set<SetRef>, nodes': set<SetRef>, missing': set<SetRef>, any: set<SetRef>, next: seq<SetRef>)
    requires Between(reg, top, seen, nodes, missing, {}, Elems(level))
    ensures Between(reg, top, seen', nodes', missing', any, Elems(next))
    ensures nodes' + missing' == nodes + missing + Elems(level) && nodes <= nodes' && missing <= missing'
    ensures Elems(next) !! seen
  {
    seen', nodes', missing', any, next := seen, nodes, missing, {}, [];
    assert level[0..] == level && Elems(level) + Elems(next) == Elems(level);
    for i := 0 to |level|
      invariant Between(reg, top, seen', nodes', missing', any, Elems(level[i..]) + Elems(next))
      invariant nodes' + missing' == nodes + missing + Elems(level[..i]) && nodes <= nodes' && missing <= missing'
      invariant seen <= seen' && Elems(next) !! seen
    {
      ElemsStep(level, i);
      seen', nodes', missing', any, next :=
        Visit(reg, top, level[i], Elems(level[i + 1..]), seen', nodes', missing', any, next);
    }
    assert level[|level|..] == [] && level[..|level|] == level;
    assert Elems(level[|level|..]) + Elems(next) == Elems(next);
  }

  /** One set of a level, rest being what the level still holds. */
  method Visit(reg: Graph, top: SetRef, n: SetRef, ghost rest: set<SetRef>,
               seen: set<SetRef>, nodes: set<SetRef>, missing: set<SetRef>, any: set<SetRef>, next: seq<SetRef>)
    returns (seen': set<SetRef>, nodes': set<SetRef>, missing': set<SetRef>, any': set<SetRef>, next': seq<SetRef>)
    requires Between(reg, top, seen, nodes, missing, any, {n} + rest + Elems(next))
    ensures Between(reg, top, seen', nodes', missing', any', rest + Elems(next'))
    ensures nodes' + missing' == nodes + missing + {n} && nodes <= nodes' && missing <= missing'
    ensures seen <= seen' && Elems(next') - Elems(next) !! seen
  {
    seen', nodes', missing', any', next' := seen, nodes, missing, any, next;
    ghost var pending, left := {n} + rest + Elems(next), rest + Elems(next);
    if n !in reg.nodes {
      BetweenMissing(reg, top, seen, nodes, missing, any, pending, n, left);
      missing' := missing + {n};
    } else {
      BetweenFound(reg, top, seen, nodes, missing, any, pending, n, left);
      nodes' := nodes + {n};
      seen', next', any' := Follow(reg, n, seen, next, any);
      assert rest + Elems(next') == left + Plain(Nested(reg, n) - seen);
    }
  }

  lemma AllReachableSeen(reg: Graph, top: SetRef, seen: set<SetRef>, nodes: set<SetRef>, missing: set<SetRef>)
    requires Between(reg, top, seen, nodes, missing, {}, {})
    ensures forall r :: Reachable(reg, top, r) <==> r in nodes + missing
  {
    forall r | Reachable(reg, top, r) ensures r in seen {
      var trail :| Trail(reg, top, trail, r);
      TrailStaysIn(reg, top, seen, trail, r);
    }
  }

  ghost predicate AnyReachable(reg: Graph, top: SetRef) { exists r: SetRef :: r.name.IsAny() && Reachable(reg, top, r) }

  /** The discovery loop. It answers AnySet exactly when a name standing for the whole registry is
      reachable, and otherwise the reachable sets, fetched or missing. */
  method Discover(reg: Graph, top: SetRef) returns (o: Outcome)
    ensures o.AnySet? <==> top.name.IsAny() || (top in reg.nodes && AnyReachable(reg, top))
    ensures o.TopNotFound? <==> !top.name.IsAny() && top !in reg.nodes
    ensures o.Discovered? ==> forall r :: r in o.nodes <==> Reachable(reg, top, r) && r in reg.nodes
    ensures o.Discovered? ==> forall r :: r in o.missing <==> Reachable(reg, top, r) && r !in reg.nodes
  {
    assert Trail(reg, top, [], top);
    if top.name.IsAny() { return AnySet(top.name); }
    if top !in reg.nodes { return TopNotFound; }
    var seen, nodes, missing: set<SetRef> := {top}, {}, {};
    var level := [top];
    assert Elems(level) == {top};
    while level != []
      invariant Between(reg, top, seen, nodes, missing, {}, Elems(level)) && Elems(level) !! nodes + missing
      decreases Mentioned(reg, top) - (nodes + missing)
    {
      assert level[0] in Elems(level);
      ghost var before := nodes + missing;
      var any, next;
      seen, nodes, missing, any, next := Level(reg, top, level, seen, nodes, missing);
      if any != {} {
        var r :| r in any;
        return AnySet(r.name);
      }
      assert level[0] in nodes + missing && level[0] !in before && level[0] in Mentioned(reg, top);
      level := next;
    }
    assert Elems(level) == {};
    AllReachableSeen(reg, top, seen, nodes, missing);
    return Discovered(nodes, missing);
  }

  // ---- expansion over a registry ----

  /** What discovery hands the evaluator. */
  function Restrict(reg: Graph, nodes: set<SetRef>): Graph {
    Graph(map r | r in nodes && r in reg.nodes :: reg.nodes[r], reg.routes, reg.excluded)
  }

  /** The sets not reachable from top have no part in what top denotes. */
  lemma {:induction false} RestrictDerives(reg: Graph, top: SetRef, nodes: set<SetRef>, ref: SetRef, path: seq<Member>,
                                           q: Prefix)
    requires forall r :: r in nodes <==> Reachable(reg, top, r) && r in reg.nodes
    requires forall r :: Reachable(reg, top, r) ==> !r.name.IsAny()
    requires Reachable(reg, top, ref)
    ensures Derives(Restrict(reg, nodes), ref, path, q) <==> Derives(reg, ref, path, q)
    decreases |path|
  {
    var g := Restrict(reg, nodes);
    assert g.Members(ref) == reg.Members(ref) && g.Claims(ref) == reg.Claims(ref);
    assert OwnHas(g, ref, q) <==> OwnHas(reg, ref, q) by { RestrictOwn(reg, nodes, ref, q); }
    if path != [] && path[0] in reg.Members(ref) && path[0].MemberSet? {
      var m := path[0];
      if Points(reg, ref, m) {
        NestedIff(reg, ref, m.ref);
        ReachableNested(reg, top, ref, m.ref);
        forall p ensures Derives(g, m.ref, path[1..], p) <==> Derives(reg, m.ref, path[1..], p) {
          RestrictDerives(reg, top, nodes, m.ref, path[1..], p);
        }
      }
    }
  }

  lemma RestrictOwn(reg: Graph, nodes: set<SetRef>, ref: SetRef, q: Prefix)
    requires Restrict(reg, nodes).Members(ref) == reg.Members(ref)
    requires Restrict(reg, nodes).Claims(ref) == reg.Claims(ref)
    ensures OwnHas(Restrict(reg, nodes), ref, q) <==> OwnHas(reg, ref, q)
  {
    var g := Restrict(reg, nodes);
    forall asn, op ensures RouteHas(g, asn, op, q) <==> RouteHas(reg, asn, op, q) {
      assert g.Routes(asn) == reg.Routes(asn);
    }
    assert forall m :: MemberHas(g, m, q) <==> MemberHas(reg, m, q);
    assert forall c :: ClaimHas(g, c, q) <==> ClaimHas(reg, c, q);
  }

  datatype Expansion = Expanded(ranges: set<PrefixRange>, missing: set<SetRef>) | NotFound | ReachesAny | WrongClass

  /** ExpandPrefixRanges: the ranges denote exactly the least solution, over the whole registry, at
      the set asked for. */
  method ExpandPrefixRanges(reg: Graph, top: SetRef, afi: Afi) returns (e: Expansion)
    requires reg.Valid()
    ensures e.WrongClass? <==> !(top.name.class_.ClassAsSet? || top.name.class_.ClassRouteSet?)
    ensures e.ReachesAny? <==> !e.WrongClass? && (top.name.IsAny() || (top in reg.nodes && AnyReachable(reg, top)))
    ensures e.NotFound? <==> !e.WrongClass? && !top.name.IsAny() && top !in reg.nodes
    ensures e.Expanded? ==> forall q: Prefix :: q.Valid() ==>
              (RangesDenote(e.ranges, q) <==> afi.Allows(q.family) && InSet(reg, top, q))
    ensures e.Expanded? ==> forall r :: r in e.missing <==> Reachable(reg, top, r) && r !in reg.nodes
  {
    if !(top.name.class_.ClassAsSet? || top.name.class_.ClassRouteSet?) { return WrongClass; }
    var o := Discover(reg, top);
    match o
    case AnySet(_) => return ReachesAny;
    case TopNotFound => return NotFound;
    case Discovered(nodes, missing) =>
      var g := Restrict(reg, nodes);
      assert Trail(reg, top, [], top);
      assert g.Valid();
      var ranges := ExpandRanges(g, top, afi);
      forall q: Prefix ensures InSet(g, top, q) <==> InSet(reg, top, q) {
        forall path ensures Derives(g, top, path, q) <==> Derives(reg, top, path, q) {
          RestrictDerives(reg, top, nodes, top, path, q);
        }
      }
      return Expanded(ranges, missing);
  }
}
