/** The terms of a policy (policy/flatten.go:147-288) and what they accept. */
module FlattenTerms {
  import opened Prefixes
  import opened Policies
  import opened Flattening

  // ---- REFINE and EXCEPT on terms ----

  function IntersectPeerings(a: Peering, b: Peering): Option<Peering> {
    if a.AnyPeering? then Some(b) else if b.AnyPeering? || a == b then Some(a) else None
  }

  /** Absent vias meet, and meet any. */
  function IntersectVias(a: Option<Peering>, b: Option<Peering>): Option<Option<Peering>> {
    if a.None? then Some(b)
    else if b.None? then Some(a)
    else
      var p := IntersectPeerings(a.value, b.value);
      if p.None? then None else Some(p)
  }

  function RefinePair(l: Term, r: Term): seq<Term> {
    var p, v := IntersectPeerings(l.peering, r.peering), IntersectVias(l.via, r.via);
    if p.None? || v.None? then []
    else [Term(v.value, p.value, l.actions + r.actions, AndFilters(l.filter, r.filter), l.w + r.w + 1)]
  }

  function RefineRow(l: Term, right: seq<Term>): seq<Term> {
    if right == [] then [] else RefinePair(l, right[0]) + RefineRow(l, right[1..])
  }

  function RefineAll(left: seq<Term>, right: seq<Term>): seq<Term> {
    if left == [] then [] else RefineRow(left[0], right) + RefineAll(left[1..], right)
  }

  /** The right-hand term r for what the left-hand term l covers. */
  function Exception(l: Term, r: Term): Term {
    Term(r.via, r.peering, r.actions, AndFilters(l.filter, r.filter), l.w + r.w + 1)
  }

  function ExceptRow(l: Term, right: seq<Term>): seq<Term> {
    if right == [] then [] else [Exception(l, right[0])] + ExceptRow(l, right[1..])
  }

  function Exceptions(left: seq<Term>, right: seq<Term>): seq<Term> {
    if left == [] then [] else ExceptRow(left[0], right) + Exceptions(left[1..], right)
  }

  /** The filters of the right-hand terms that have one, and their weight. */
  function Covered(right: seq<Term>): seq<Test> {
    if right == [] then [] else (if right[0].filter.None? then [] else [right[0].filter.value]) + Covered(right[1..])
  }

  function CoveredWeight(right: seq<Term>): nat {
    if right == [] then 0 else (if right[0].filter.None? then 0 else right[0].w) + CoveredWeight(right[1..])
  }

  /** What the right-hand terms leave of l. */
  function Remainder(l: Term, rest: Option<Test>, restW: nat): Term {
    if rest.None? then l else l.(filter := AndFilters(l.filter, Some(Not(rest.value))), w := l.w + restW + 1)
  }

  function Remainders(left: seq<Term>, rest: Option<Test>, restW: nat): seq<Term> {
    if left == [] then [] else [Remainder(left[0], rest, restW)] + Remainders(left[1..], rest, restW)
  }

  function ExceptAll(left: seq<Term>, right: seq<Term>): seq<Term> {
    if right == [] then left
    else Exceptions(left, right) + Remainders(left, OrFilters(Covered(right)), 2 + CoveredWeight(right))
  }

  function FactorTerms(peers: seq<PeerActions>, f: Option<Test>, w: nat): seq<Term> {
    if peers == [] then []
    else [Term(peers[0].via, peers[0].peering, peers[0].actions, f, w)] + FactorTerms(peers[1..], f, w)
  }

  function SizeOf(f: Option<Test>): nat { if f.None? then 0 else FilterSize(f.value, 0) }

  /** The terms of e for family af, whatever they cost. */
  function Flat(e: Expr, af: AddrFamily): seq<Term> {
    match e
    case Factor(peers, f) => FactorTerms(peers, f, SizeOf(f))
    case List(es) => FlatList(es, af)
    case Refine(l, r, afis) => if InEffect(afis, af) then RefineAll(Flat(l, af), Flat(r, af)) else Flat(l, af)
    case Except(l, r, afis) => if InEffect(afis, af) then ExceptAll(Flat(l, af), Flat(r, af)) else Flat(l, af)
  }

  function FlatList(es: seq<Expr>, af: AddrFamily): seq<Term> {
    if es == [] then [] else Flat(es[0], af) + FlatList(es[1..], af)
  }

  // ---- what terms accept ----

  predicate TermAccepts(t: Term, x: string, y: string, r: Route) {
    Includes(Some(t.peering), x) && Includes(t.via, y) && Admits(t.filter, r)
  }

  predicate SomeAccepts(ts: seq<Term>, x: string, y: string, r: Route) {
    ts != [] && (TermAccepts(ts[0], x, y, r) || SomeAccepts(ts[1..], x, y, r))
  }

  /** A term admits r from someone. */
  predicate SomeAdmits(ts: seq<Term>, r: Route) { ts != [] && (Admits(ts[0].filter, r) || SomeAdmits(ts[1..], r)) }

  /** Every filter there is is parsed. */
  predicate AllSound(ts: seq<Term>) {
    ts == [] || ((ts[0].filter.Some? ==> Parsed(ts[0].filter.value)) && AllSound(ts[1..]))
  }

  predicate AllFiltered(ts: seq<Term>) { ts == [] || (ts[0].filter.Some? && AllFiltered(ts[1..])) }

  lemma {:induction false} AcceptsAppend(a: seq<Term>, b: seq<Term>, x: string, y: string, r: Route)
    ensures SomeAccepts(a + b, x, y, r) <==> SomeAccepts(a, x, y, r) || SomeAccepts(b, x, y, r)
    ensures SomeAdmits(a + b, r) <==> SomeAdmits(a, r) || SomeAdmits(b, r)
    decreases |a|
  {
    if a == [] {
      assert a + b == b;
    } else {
      AcceptsAppend(a[1..], b, x, y, r);
      assert (a + b)[0] == a[0] && (a + b)[1..] == a[1..] + b;
    }
  }

  lemma {:induction false} SoundAppend(a: seq<Term>, b: seq<Term>)
    ensures AllSound(a) && AllSound(b) ==> AllSound(a + b)
    ensures AllFiltered(a) && AllFiltered(b) ==> AllFiltered(a + b)
    decreases |a|
  {
    if a == [] {
      assert a + b == b;
    } else {
      SoundAppend(a[1..], b);
      assert (a + b)[0] == a[0] && (a + b)[1..] == a[1..] + b;
    }
  }

  lemma {:induction false} AcceptedIsAdmitted(ts: seq<Term>, x: string, y: string, r: Route)
    requires SomeAccepts(ts, x, y, r)
    ensures SomeAdmits(ts, r)
    decreases |ts|
  {
    if !TermAccepts(ts[0], x, y, r) { AcceptedIsAdmitted(ts[1..], x, y, r); }
  }

  lemma {:induction false} AdmittedFrom(ts: seq<Term>, r: Route) returns (x: string, y: string)
    requires SomeAdmits(ts, r)
    ensures SomeAccepts(ts, x, y, r)
    decreases |ts|
  {
    var t := ts[0];
    if Admits(t.filter, r) {
      x := if t.peering.AnyPeering? then "" else t.peering.text;
      y := if t.via.None? || t.via.value.AnyPeering? then "" else t.via.value.text;
    } else {
      x, y := AdmittedFrom(ts[1..], r);
    }
  }

  // ---- REFINE ----

  lemma {:induction false} RefinePairAccepts(l: Term, t: Term, x: string, y: string, r: Route)
    requires (l.filter.Some? ==> Parsed(l.filter.value)) && (t.filter.Some? ==> Parsed(t.filter.value))
    ensures SomeAccepts(RefinePair(l, t), x, y, r) <==> TermAccepts(l, x, y, r) && TermAccepts(t, x, y, r)
    ensures AllSound(RefinePair(l, t)) && (l.filter.Some? ==> AllFiltered(RefinePair(l, t)))
  {
    AndFiltersPass(l.filter, t.filter, r);
    var ts := RefinePair(l, t);
    if ts != [] { assert ts[1..] == []; }
  }

  lemma {:induction false} RefineRowAccepts(l: Term, right: seq<Term>, x: string, y: string, r: Route)
    requires (l.filter.Some? ==> Parsed(l.filter.value)) && AllSound(right)
    ensures SomeAccepts(RefineRow(l, right), x, y, r) <==> TermAccepts(l, x, y, r) && SomeAccepts(right, x, y, r)
    ensures AllSound(RefineRow(l, right)) && (l.filter.Some? ==> AllFiltered(RefineRow(l, right)))
    decreases |right|
  {
    if right != [] {
      RefinePairAccepts(l, right[0], x, y, r);
      RefineRowAccepts(l, right[1..], x, y, r);
      AcceptsAppend(RefinePair(l, right[0]), RefineRow(l, right[1..]), x, y, r);
      SoundAppend(RefinePair(l, right[0]), RefineRow(l, right[1..]));
    }
  }

  /** REFINE accepts what both sides do. */
  lemma {:induction false} RefineAccepts(left: seq<Term>, right: seq<Term>, x: string, y: string, r: Route)
    requires AllSound(left) && AllSound(right)
    ensures SomeAccepts(RefineAll(left, right), x, y, r) <==> SomeAccepts(left, x, y, r) && SomeAccepts(right, x, y, r)
    ensures AllSound(RefineAll(left, right)) && (AllFiltered(left) ==> AllFiltered(RefineAll(left, right)))
    decreases |left|
  {
    if left != [] {
      RefineRowAccepts(left[0], right, x, y, r);
      RefineAccepts(left[1..], right, x, y, r);
      AcceptsAppend(RefineRow(left[0], right), RefineAll(left[1..], right), x, y, r);
      SoundAppend(RefineRow(left[0], right), RefineAll(left[1..], right));
    }
  }

  // ---- EXCEPT ----

  lemma {:induction false} ExceptRowAccepts(l: Term, right: seq<Term>, x: string, y: string, r: Route)
    requires (l.filter.Some? ==> Parsed(l.filter.value)) && AllSound(right)
    ensures SomeAccepts(ExceptRow(l, right), x, y, r) <==> Admits(l.filter, r) && SomeAccepts(right, x, y, r)
    ensures SomeAdmits(ExceptRow(l, right), r) <==> Admits(l.filter, r) && SomeAdmits(right, r)
    ensures AllSound(ExceptRow(l, right)) && (l.filter.Some? ==> AllFiltered(ExceptRow(l, right)))
    decreases |right|
  {
    if right != [] {
      AndFiltersPass(l.filter, right[0].filter, r);
      ExceptRowAccepts(l, right[1..], x, y, r);
      assert ExceptRow(l, right)[1..] == ExceptRow(l, right[1..]);
    }
  }

  lemma {:induction false} ExceptionsAccept(left: seq<Term>, right: seq<Term>, x: string, y: string, r: Route)
    requires AllSound(left) && AllSound(right)
    ensures SomeAccepts(Exceptions(left, right), x, y, r) <==> SomeAdmits(left, r) && SomeAccepts(right, x, y, r)
    ensures SomeAdmits(Exceptions(left, right), r) <==> SomeAdmits(left, r) && SomeAdmits(right, r)
    ensures AllSound(Exceptions(left, right)) && (AllFiltered(left) ==> AllFiltered(Exceptions(left, right)))
    decreases |left|
  {
    if left != [] {
      ExceptRowAccepts(left[0], right, x, y, r);
      ExceptionsAccept(left[1..], right, x, y, r);
      AcceptsAppend(ExceptRow(left[0], right), Exceptions(left[1..], right), x, y, r);
      SoundAppend(ExceptRow(left[0], right), Exceptions(left[1..], right));
    }
  }

  lemma {:induction false} RemaindersAccept(left: seq<Term>, rest: Option<Test>, restW: nat, x: string, y: string,
                                            r: Route)
    requires AllSound(left) && (rest.Some? ==> Parsed(rest.value))
    ensures SomeAccepts(Remainders(left, rest, restW), x, y, r) <==>
            SomeAccepts(left, x, y, r) && (rest.Some? ==> !Passes(rest.value, r))
    ensures SomeAdmits(Remainders(left, rest, restW), r) <==>
            SomeAdmits(left, r) && (rest.Some? ==> !Passes(rest.value, r))
    ensures AllSound(Remainders(left, rest, restW))
    ensures AllFiltered(left) ==> AllFiltered(Remainders(left, rest, restW))
    decreases |left|
  {
    if left != [] {
      RemaindersAccept(left[1..], rest, restW, x, y, r);
      if rest.Some? { AndFiltersPass(left[0].filter, Some(Not(rest.value)), r); }
      assert Remainders(left, rest, restW)[1..] == Remainders(left[1..], rest, restW);
    }
  }

  /** A right-hand term with a filter admits r. */
  predicate FilteredAdmits(ts: seq<Term>, r: Route) {
    ts != [] && ((ts[0].filter.Some? && Admits(ts[0].filter, r)) || FilteredAdmits(ts[1..], r))
  }

  lemma {:induction false} CoveredPasses(right: seq<Term>, r: Route)
    requires AllSound(right)
    ensures AllParsed(Covered(right)) && (SomePasses(Covered(right), r) <==> FilteredAdmits(right, r))
    ensures FilteredAdmits(right, r) ==> SomeAdmits(right, r)
    ensures AllFiltered(right) ==> (SomeAdmits(right, r) <==> FilteredAdmits(right, r)) && |Covered(right)| == |right|
    decreases |right|
  {
    if right != [] {
      CoveredPasses(right[1..], r);
      if right[0].filter.Some? {
        var fs := Covered(right);
        assert fs[0] == right[0].filter.value && fs[1..] == Covered(right[1..]);
      } else {
        assert [] + Covered(right[1..]) == Covered(right[1..]);
      }
    }
  }

  /** EXCEPT, its right side fully filtered: the right for what the left admits, the left for what the right
      does not. */
  lemma {:induction false} ExceptAccepts(left: seq<Term>, right: seq<Term>, x: string, y: string, r: Route)
    requires AllSound(left) && AllSound(right) && AllFiltered(right)
    ensures SomeAccepts(ExceptAll(left, right), x, y, r) <==>
            (SomeAdmits(left, r) && SomeAccepts(right, x, y, r)) ||
              (SomeAccepts(left, x, y, r) && !SomeAdmits(right, r))
    ensures SomeAdmits(ExceptAll(left, right), r) <==> SomeAdmits(left, r)
    ensures AllSound(ExceptAll(left, right)) && (AllFiltered(left) ==> AllFiltered(ExceptAll(left, right)))
  {
    if right != [] {
      var rest, restW := OrFilters(Covered(right)), 2 + CoveredWeight(right);
      CoveredPasses(right, r);
      OrFiltersPass(Covered(right), r);
      ExceptionsAccept(left, right, x, y, r);
      RemaindersAccept(left, rest, restW, x, y, r);
      AcceptsAppend(Exceptions(left, right), Remainders(left, rest, restW), x, y, r);
      SoundAppend(Exceptions(left, right), Remainders(left, rest, restW));
    }
  }

  /** An exception and a remainder both admit a route exactly when the left side does, a right-hand term has
      no filter, and none that has one admits it: never, when every factor has a filter. */
  lemma {:induction false} ExceptOverlap(left: seq<Term>, right: seq<Term>, r: Route)
    requires AllSound(left) && AllSound(right)
    ensures var rest := Remainders(left, OrFilters(Covered(right)), 2 + CoveredWeight(right));
            SomeAdmits(Exceptions(left, right), r) && SomeAdmits(rest, r) <==>
            SomeAdmits(left, r) && SomeAdmits(right, r) && !FilteredAdmits(right, r)
    ensures SomeAdmits(right, r) && !FilteredAdmits(right, r) <==> !AllFiltered(right) && !FilteredAdmits(right, r)
  {
    CoveredPasses(right, r);
    OrFiltersPass(Covered(right), r);
    ExceptionsAccept(left, right, "", "", r);
    RemaindersAccept(left, OrFilters(Covered(right)), 2 + CoveredWeight(right), "", "", r);
    UnfilteredAdmits(right, r);
  }

  lemma {:induction false} UnfilteredAdmits(ts: seq<Term>, r: Route)
    ensures !AllFiltered(ts) ==> SomeAdmits(ts, r)
    decreases |ts|
  {
    if ts != [] { UnfilteredAdmits(ts[1..], r); }
  }

  // ---- the whole expression ----

  lemma {:induction false} FactorAccepts(peers: seq<PeerActions>, f: Option<Test>, w: nat, x: string, y: string,
                                         r: Route)
    requires f.Some? && Parsed(f.value)
    ensures SomeAccepts(FactorTerms(peers, f, w), x, y, r) <==>
            Admits(f, r) && exists i ::
              0 <= i < |peers| && Includes(Some(peers[i].peering), x) && Includes(peers[i].via, y)
    ensures AllSound(FactorTerms(peers, f, w)) && AllFiltered(FactorTerms(peers, f, w))
    decreases |peers|
  {
    if peers != [] {
      FactorAccepts(peers[1..], f, w, x, y, r);
      assert FactorTerms(peers, f, w)[1..] == FactorTerms(peers[1..], f, w);
      if exists i :: 0 <= i < |peers| && Includes(Some(peers[i].peering), x) && Includes(peers[i].via, y) {
        var i :| 0 <= i < |peers| && Includes(Some(peers[i].peering), x) && Includes(peers[i].via, y);
        if i > 0 { assert peers[i] == peers[1..][i - 1]; }
      }
    }
  }

  /** Flattening is faithful: the terms accept exactly what the policy does. */
  lemma {:induction false} FlatAccepts(e: Expr, af: AddrFamily, x: string, y: string, r: Route)
    requires Complete(e)
    ensures SomeAccepts(Flat(e, af), x, y, r) <==> Accepts(e, af, x, y, r)
    ensures AllSound(Flat(e, af)) && AllFiltered(Flat(e, af))
    decreases e, 0
  {
    match e
    case Factor(peers, f) => FactorAccepts(peers, f, SizeOf(f), x, y, r);
    case List(es) => FlatListAccepts(es, af, x, y, r);
    case Refine(left, right, afis) =>
      FlatAccepts(left, af, x, y, r);
      if InEffect(afis, af) {
        FlatAccepts(right, af, x, y, r);
        RefineAccepts(Flat(left, af), Flat(right, af), x, y, r);
      }
    case Except(left, right, afis) =>
      FlatAccepts(left, af, x, y, r);
      if InEffect(afis, af) {
        FlatAccepts(right, af, x, y, r);
        FlatAdmits(left, af, r);
        FlatAdmits(right, af, r);
        ExceptAccepts(Flat(left, af), Flat(right, af), x, y, r);
      }
  }

  lemma {:induction false} Someone(e: Expr, af: AddrFamily, r: Route) returns (x: string, y: string)
    requires AcceptsRoute(e, af, r)
    ensures Accepts(e, af, x, y, r)
  {
    x, y :| Accepts(e, af, x, y, r);
  }

  lemma {:induction false} FlatAdmits(e: Expr, af: AddrFamily, r: Route)
    requires Complete(e)
    ensures SomeAdmits(Flat(e, af), r) <==> AcceptsRoute(e, af, r)
    decreases e, 1
  {
    if SomeAdmits(Flat(e, af), r) {
      var x, y := AdmittedFrom(Flat(e, af), r);
      FlatAccepts(e, af, x, y, r);
    }
    if AcceptsRoute(e, af, r) {
      var x, y := Someone(e, af, r);
      FlatAccepts(e, af, x, y, r);
      AcceptedIsAdmitted(Flat(e, af), x, y, r);
    }
  }

  lemma {:induction false} FlatListAccepts(es: seq<Expr>, af: AddrFamily, x: string, y: string, r: Route)
    requires AllComplete(es)
    ensures SomeAccepts(FlatList(es, af), x, y, r) <==> exists i :: 0 <= i < |es| && Accepts(es[i], af, x, y, r)
    ensures AllSound(FlatList(es, af)) && AllFiltered(FlatList(es, af))
    decreases es, 0
  {
    if es != [] {
      FlatAccepts(es[0], af, x, y, r);
      FlatListAccepts(es[1..], af, x, y, r);
      AcceptsAppend(Flat(es[0], af), FlatList(es[1..], af), x, y, r);
      SoundAppend(Flat(es[0], af), FlatList(es[1..], af));
      if exists i :: 0 <= i < |es| && Accepts(es[i], af, x, y, r) {
        var i :| 0 <= i < |es| && Accepts(es[i], af, x, y, r);
        if i > 0 { assert es[1..][i - 1] == es[i]; }
      }
      if exists i :: 0 <= i < |es[1..]| && Accepts(es[1..][i], af, x, y, r) {
        var i :| 0 <= i < |es[1..]| && Accepts(es[1..][i], af, x, y, r);
        assert es[i + 1] == es[1..][i];
      }
    }
  }

  /** EXCEPT keeps what the left side accepts, and an exception shares no route with a remainder. */
  lemma {:induction false} ExceptKeeps(left: Expr, right: Expr, af: AddrFamily, r: Route)
    requires Complete(left) && Complete(right)
    ensures var ls, rs := Flat(left, af), Flat(right, af);
            SomeAdmits(ExceptAll(ls, rs), r) <==> AcceptsRoute(left, af, r)
    ensures var ls, rs := Flat(left, af), Flat(right, af);
            !(SomeAdmits(Exceptions(ls, rs), r) &&
              SomeAdmits(Remainders(ls, OrFilters(Covered(rs)), 2 + CoveredWeight(rs)), r))
  {
    var ls, rs := Flat(left, af), Flat(right, af);
    FlatAccepts(left, af, "", "", r);
    FlatAccepts(right, af, "", "", r);
    FlatAdmits(left, af, r);
    ExceptAccepts(ls, rs, "", "", r);
    ExceptOverlap(ls, rs, r);
  }
}
