/** Which actions a route gets from flattened terms: those of the first term that accepts it, as the
    specification-order rule of section 6.1 of RFC 2622 reads them (policy/flatten.go:58-70, 218-288). */
module FlattenActions {
  import opened Prefixes
  import opened Policies
  import opened Flattening
  import opened FlattenTerms

  /** The actions of the first term that accepts r from x by way of y. */
  function First(ts: seq<Term>, x: string, y: string, r: Route): Option<seq<Action>> {
    if ts == [] then None else if TermAccepts(ts[0], x, y, r) then Some(ts[0].actions) else First(ts[1..], x, y, r)
  }

  function Else(a: Option<seq<Action>>, b: Option<seq<Action>>): Option<seq<Action>> { if a.Some? then a else b }

  function Both(a: Option<seq<Action>>, b: Option<seq<Action>>): Option<seq<Action>> {
    if a.None? || b.None? then None else Some(a.value + b.value)
  }

  function FirstPeer(peers: seq<PeerActions>, x: string, y: string): Option<seq<Action>> {
    if peers == [] then None
    else if Includes(Some(peers[0].peering), x) && Includes(peers[0].via, y) then Some(peers[0].actions)
    else FirstPeer(peers[1..], x, y)
  }

  /** What the policy e itself says: the first expression of a list that accepts the route decides; REFINE does
      the left side's actions and then the right's; EXCEPT does the right side's for what the left accepts from
      anyone, and the left's for what the right accepts from no one. */
  ghost function Chosen(e: Expr, af: AddrFamily, x: string, y: string, r: Route): Option<seq<Action>> {
    match e
    case Factor(peers, f) => if Admits(f, r) then FirstPeer(peers, x, y) else None
    case List(es) => ChosenOf(es, af, x, y, r)
    case Refine(left, right, afis) =>
      var a := Chosen(left, af, x, y, r);
      if InEffect(afis, af) then Both(a, Chosen(right, af, x, y, r)) else a
    case Except(left, right, afis) =>
      var a, b := Chosen(left, af, x, y, r), Chosen(right, af, x, y, r);
      if !InEffect(afis, af) then a
      else if AcceptsRoute(left, af, r) && b.Some? then b
      else if AcceptsRoute(right, af, r) then None
      else a
  }

  ghost function ChosenOf(es: seq<Expr>, af: AddrFamily, x: string, y: string, r: Route): Option<seq<Action>> {
    if es == [] then None else Else(Chosen(es[0], af, x, y, r), ChosenOf(es[1..], af, x, y, r))
  }

  lemma {:induction false} FirstAppend(a: seq<Term>, b: seq<Term>, x: string, y: string, r: Route)
    ensures First(a + b, x, y, r) == Else(First(a, x, y, r), First(b, x, y, r))
    decreases |a|
  {
    if a == [] {
      assert a + b == b;
    } else {
      FirstAppend(a[1..], b, x, y, r);
      assert (a + b)[0] == a[0] && (a + b)[1..] == a[1..] + b;
    }
  }

  lemma {:induction false} FirstIffAccepts(ts: seq<Term>, x: string, y: string, r: Route)
    ensures First(ts, x, y, r).Some? <==> SomeAccepts(ts, x, y, r)
    decreases |ts|
  {
    if ts != [] { FirstIffAccepts(ts[1..], x, y, r); }
  }

  // ---- REFINE ----

  lemma {:induction false} FirstPair(l: Term, t: Term, x: string, y: string, r: Route)
    requires (l.filter.Some? ==> Parsed(l.filter.value)) && (t.filter.Some? ==> Parsed(t.filter.value))
    ensures First(RefinePair(l, t), x, y, r) == if TermAccepts(l, x, y, r) &&
            TermAccepts(t, x, y, r) then Some(l.actions + t.actions) else None
  {
    RefinePairAccepts(l, t, x, y, r);
    FirstIffAccepts(RefinePair(l, t), x, y, r);
  }

  lemma {:induction false} FirstRow(l: Term, right: seq<Term>, x: string, y: string, r: Route)
    requires (l.filter.Some? ==> Parsed(l.filter.value)) && AllSound(right)
    ensures First(RefineRow(l, right), x, y, r) ==
            if TermAccepts(l, x, y, r) then Both(Some(l.actions), First(right, x, y, r)) else None
    decreases |right|
  {
    if right != [] {
      FirstPair(l, right[0], x, y, r);
      FirstRow(l, right[1..], x, y, r);
      FirstAppend(RefinePair(l, right[0]), RefineRow(l, right[1..]), x, y, r);
    }
  }

  /** REFINE: the first term of each side, the left one's actions before the right one's. */
  lemma {:induction false} FirstRefined(left: seq<Term>, right: seq<Term>, x: string, y: string, r: Route)
    requires AllSound(left) && AllSound(right)
    ensures First(RefineAll(left, right), x, y, r) == Both(First(left, x, y, r), First(right, x, y, r))
    decreases |left|
  {
    if left != [] {
      FirstRow(left[0], right, x, y, r);
      FirstRefined(left[1..], right, x, y, r);
      FirstAppend(RefineRow(left[0], right), RefineAll(left[1..], right), x, y, r);
    }
  }

  // ---- EXCEPT ----

  lemma {:induction false} FirstExceptRow(l: Term, right: seq<Term>, x: string, y: string, r: Route)
    requires (l.filter.Some? ==> Parsed(l.filter.value)) && AllSound(right)
    ensures First(ExceptRow(l, right), x, y, r) == if Admits(l.filter, r) then First(right, x, y, r) else None
    decreases |right|
  {
    if right != [] {
      AndFiltersPass(l.filter, right[0].filter, r);
      FirstExceptRow(l, right[1..], x, y, r);
      assert ExceptRow(l, right)[1..] == ExceptRow(l, right[1..]);
    }
  }

  lemma {:induction false} FirstException(left: seq<Term>, right: seq<Term>, x: string, y: string, r: Route)
    requires AllSound(left) && AllSound(right)
    ensures First(Exceptions(left, right), x, y, r) == if SomeAdmits(left, r) then First(right, x, y, r) else None
    decreases |left|
  {
    if left != [] {
      FirstExceptRow(left[0], right, x, y, r);
      FirstException(left[1..], right, x, y, r);
      FirstAppend(ExceptRow(left[0], right), Exceptions(left[1..], right), x, y, r);
    }
  }

  lemma {:induction false} FirstRemainder(left: seq<Term>, rest: Option<Test>, restW: nat, x: string, y: string,
                                          r: Route)
    requires AllSound(left) && (rest.Some? ==> Parsed(rest.value))
    ensures First(Remainders(left, rest, restW), x, y, r) == if rest.Some? && Passes(rest.value, r) then None
            else First(left, x, y, r)
    decreases |left|
  {
    if left != [] {
      FirstRemainder(left[1..], rest, restW, x, y, r);
      if rest.Some? { AndFiltersPass(left[0].filter, Some(Not(rest.value)), r); }
      assert Remainders(left, rest, restW)[1..] == Remainders(left[1..], rest, restW);
    }
  }

  /** EXCEPT: the right side's first term for what the left admits, else the left's for what the right does not. */
  lemma {:induction false} FirstExcepted(left: seq<Term>, right: seq<Term>, x: string, y: string, r: Route)
    requires AllSound(left) && AllSound(right) && AllFiltered(right)
    ensures First(ExceptAll(left, right), x, y, r) ==
            if SomeAdmits(left, r) && First(right, x, y, r).Some? then First(right, x, y, r)
            else if SomeAdmits(right, r) then None
            else First(left, x, y, r)
  {
    if right != [] {
      var rest, restW := OrFilters(Covered(right)), 2 + CoveredWeight(right);
      CoveredPasses(right, r);
      OrFiltersPass(Covered(right), r);
      FirstException(left, right, x, y, r);
      FirstRemainder(left, rest, restW, x, y, r);
      FirstAppend(Exceptions(left, right), Remainders(left, rest, restW), x, y, r);
    }
  }

  // ---- the whole expression ----

  lemma {:induction false} FirstFactor(peers: seq<PeerActions>, f: Option<Test>, w: nat, x: string, y: string, r: Route)
    ensures First(FactorTerms(peers, f, w), x, y, r) == if Admits(f, r) then FirstPeer(peers, x, y) else None
    decreases |peers|
  {
    if peers != [] {
      FirstFactor(peers[1..], f, w, x, y, r);
      assert FactorTerms(peers, f, w)[1..] == FactorTerms(peers[1..], f, w);
    }
  }

  /** The terms, read in order, give every route the actions the policy does. */
  lemma {:induction false} FlatChosen(e: Expr, af: AddrFamily, x: string, y: string, r: Route)
    requires Complete(e)
    ensures First(Flat(e, af), x, y, r) == Chosen(e, af, x, y, r)
    decreases e, 0
  {
    match e
    case Factor(peers, f) => FirstFactor(peers, f, SizeOf(f), x, y, r);
    case List(es) => FlatListChosen(es, af, x, y, r);
    case Refine(left, right, afis) =>
      FlatChosen(left, af, x, y, r);
      FlatChosen(right, af, x, y, r);
      FlatAccepts(left, af, x, y, r);
      FlatAccepts(right, af, x, y, r);
      FirstRefined(Flat(left, af), Flat(right, af), x, y, r);
    case Except(left, right, afis) =>
      FlatChosen(left, af, x, y, r);
      FlatChosen(right, af, x, y, r);
      FlatAccepts(left, af, x, y, r);
      FlatAccepts(right, af, x, y, r);
      FlatAdmits(left, af, r);
      FlatAdmits(right, af, r);
      FirstExcepted(Flat(left, af), Flat(right, af), x, y, r);
  }

  lemma {:induction false} FlatListChosen(es: seq<Expr>, af: AddrFamily, x: string, y: string, r: Route)
    requires AllComplete(es)
    ensures First(FlatList(es, af), x, y, r) == ChosenOf(es, af, x, y, r)
    decreases es, 0
  {
    if es != [] {
      FlatChosen(es[0], af, x, y, r);
      FlatListChosen(es[1..], af, x, y, r);
      FirstAppend(Flat(es[0], af), FlatList(es[1..], af), x, y, r);
    }
  }
}
