/** Structured policies (RFC 2622 sections 6.5 and 6.6, RFC 4012 section 2.5) and what they accept. */
module Policies {
  import opened Prefixes

  /** A parsed filter, its tests left as names. */
  datatype Test = And(terms: seq<Test>) | Or(terms: seq<Test>) | Not(inner: Test) | Leaf(name: string)

  /** Which leaves a route passes. */
  type Route = string -> bool

  /** No AND or OR is without terms, as the parser builds them. */
  predicate Parsed(f: Test) {
    match f
    case And(ts) => ts != [] && AllParsed(ts)
    case Or(ts) => ts != [] && AllParsed(ts)
    case Not(g) => Parsed(g)
    case Leaf(_) => true
  }

  predicate AllParsed(ts: seq<Test>) { ts == [] || (Parsed(ts[0]) && AllParsed(ts[1..])) }

  predicate Passes(f: Test, r: Route) {
    match f
    case And(ts) => AllPass(ts, r)
    case Or(ts) => SomePasses(ts, r)
    case Not(g) => !Passes(g, r)
    case Leaf(n) => r(n)
  }

  predicate AllPass(ts: seq<Test>, r: Route) { ts == [] || (Passes(ts[0], r) && AllPass(ts[1..], r)) }

  predicate SomePasses(ts: seq<Test>, r: Route) { ts != [] && (Passes(ts[0], r) || SomePasses(ts[1..], r)) }

  /** A filter that may be absent, which constrains nothing. */
  predicate Admits(f: Option<Test>, r: Route) { f.None? || Passes(f.value, r) }

  /** A peering: AS-ANY, which meets every peering, or one known by its text. */
  datatype Peering = AnyPeering | Named(text: string)

  /** The peer x is in the peering p; an absent peering constrains nothing. */
  predicate Includes(p: Option<Peering>, x: string) { p.None? || p.value.AnyPeering? || p.value.text == x }

  type Action = string

  datatype PeerActions = PeerActions(via: Option<Peering>, peering: Peering, actions: seq<Action>)

  datatype AfiKind = AnyAfi | Ipv4 | Ipv6

  datatype Safi = AnySafi | Unicast | Multicast

  /** An address family, each half of it possibly unrestricted. */
  datatype AddrFamily = AddrFamily(afi: AfiKind, safi: Safi) {
    predicate Covers(b: AddrFamily) { (afi.AnyAfi? || afi == b.afi) && (safi.AnySafi? || safi == b.safi) }
  }

  datatype Expr =
    | Factor(peers: seq<PeerActions>, filter: Option<Test>)
    | List(exprs: seq<Expr>)
    | Refine(left: Expr, right: Expr, afis: seq<AddrFamily>)
    | Except(left: Expr, right: Expr, afis: seq<AddrFamily>)

  /** One family: not a wildcard. */
  predicate One(f: AddrFamily) { !f.afi.AnyAfi? && !f.safi.AnySafi? }

  /** f, one family, is what a names or one of what it stands for. */
  predicate StandsFor(a: AddrFamily, f: AddrFamily) {
    One(f) && (a.afi == f.afi || a.afi == AnyAfi) && (a.safi == f.safi || a.safi == AnySafi)
  }

  /** A family covers another exactly when it stands for every one family that the other does. */
  lemma {:induction false} CoversIff(a: AddrFamily, b: AddrFamily)
    ensures a.Covers(b) <==> forall f :: StandsFor(b, f) ==> StandsFor(a, f)
  {
    if !a.Covers(b) {
      var afi := if !b.afi.AnyAfi? then b.afi else if a.afi == Ipv4 then Ipv6 else Ipv4;
      var safi := if !b.safi.AnySafi? then b.safi else if a.safi == Unicast then Multicast else Unicast;
      assert StandsFor(b, AddrFamily(afi, safi)) && !StandsFor(a, AddrFamily(afi, safi));
    }
  }

  /** A clause is in effect for af: it names no family, or one that covers it. */
  predicate InEffect(afis: seq<AddrFamily>, af: AddrFamily) {
    afis == [] || exists i :: 0 <= i < |afis| && afis[i].Covers(af)
  }

  /** Every filter is there and parsed. */
  predicate Complete(e: Expr) {
    match e
    case Factor(_, f) => f.Some? && Parsed(f.value)
    case List(es) => AllComplete(es)
    case Refine(l, r, _) => Complete(l) && Complete(r)
    case Except(l, r, _) => Complete(l) && Complete(r)
  }

  predicate AllComplete(es: seq<Expr>) { es == [] || (Complete(es[0]) && AllComplete(es[1..])) }

  // ---- what a policy accepts ----

  /** The policy e, for family af, accepts route r from the peer x by way of the peer y. REFINE accepts what
      both sides do. EXCEPT accepts as its right side does what the left accepts from anyone, and as its left
      side what the right accepts from no one. */
  ghost predicate Accepts(e: Expr, af: AddrFamily, x: string, y: string, r: Route)
    decreases e, 0
  {
    match e
    case Factor(peers, f) =>
      Admits(f, r) && exists i :: 0 <= i < |peers| && Includes(Some(peers[i].peering), x) && Includes(peers[i].via, y)
    case List(es) => exists i :: 0 <= i < |es| && Accepts(es[i], af, x, y, r)
    case Refine(left, right, afis) => Accepts(left, af, x, y, r) && (InEffect(afis, af) ==> Accepts(right, af, x, y, r))
    case Except(left, right, afis) =>
      if !InEffect(afis, af) then Accepts(left, af, x, y, r)
      else
        (AcceptsRoute(left, af, r) && Accepts(right, af, x, y, r)) ||
        (Accepts(left, af, x, y, r) && !AcceptsRoute(right, af, r))
  }

  /** e accepts r from someone. */
  ghost predicate AcceptsRoute(e: Expr, af: AddrFamily, r: Route)
    decreases e, 1
  {
    exists x: string, y: string :: Accepts(e, af, x, y, r)
  }
}
