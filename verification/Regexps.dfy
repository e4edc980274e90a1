/** AS-path regular expressions (policy/regexp.go:12-93) and what they match. */
module Regexps {
  type ASN = nat
  type SetName = string
  type Template = string

  datatype RepeatOp = Star | Plus | Quest | Range

  /** An AS-path regexp. max is -1 when unbounded; same marks the forms with '~'. */
  datatype Re =
    | Alt(alts: seq<Re>)
    | Seq(terms: seq<Re>)
    | Repeat(inner: Re, op: RepeatOp, min: int, max: int, same: bool)
    | Any
    | As(asn: ASN)
    | SetOf(name: SetName)
    | TemplateOf(template: Template)
    | Peer
    | Start
    | End
    | Class(negated: bool, items: seq<Re>)
    | AsRange(lo: ASN, hi: ASN)

  /** What names stand for: the sets an expansion resolved, a per-peer set, the peer's AS. An as-set
      whose name is AS-ANY, or that reaches AS-ANY, holds every AS. */
  datatype Names = Names(isAny: SetName -> bool, sets: map<SetName, AsSet>, template: Template -> AsSet, peer: ASN)

  datatype AsSet = AsSet(any_: bool, members: set<ASN>) {
    predicate Has(a: ASN) { any_ || a in members }
  }

  /** Every quantifier's bounds are in order. */
  predicate WellFormed(e: Re) {
    match e
    case Alt(es) => forall k :: 0 <= k < |es| ==> WellFormed(es[k])
    case Seq(es) => forall k :: 0 <= k < |es| ==> WellFormed(es[k])
    case Repeat(x, _, min, max, _) => 0 <= min && (max == -1 || min <= max) && WellFormed(x)
    case Class(_, es) => forall k :: 0 <= k < |es| ==> WellFormed(es[k])
    case _ => true
  }

  /** e matches the stretch p[i..j] of the path p. Every repetition under same matches the same stretch. */
  ghost predicate Matches(names: Names, e: Re, p: seq<ASN>, i: nat, j: nat)
    requires i <= j <= |p|
    decreases e, 0
  {
    match e
    case Alt(es) => exists k :: 0 <= k < |es| && Matches(names, es[k], p, i, j)
    case Seq(es) => InTurn(names, es, p, i, j)
    case Repeat(x, _, min, max, same) =>
      exists k: nat, w: seq<ASN> :: min <= k && (max == -1 || k <= max) && Times(names, x, k, p, i, j, same, w)
    case Start => i == j == 0
    case End => i == j == |p|
    case Any => j == i + 1
    case As(a) => j == i + 1 && p[i] == a
    case SetOf(n) => j == i + 1 && (names.isAny(n) || (n in names.sets && names.sets[n].Has(p[i])))
    case TemplateOf(t) => j == i + 1 && names.template(t).Has(p[i])
    case Peer => j == i + 1 && p[i] == names.peer
    case AsRange(lo, hi) => j == i + 1 && lo <= p[i] <= hi
    case Class(negated, es) => j == i + 1 && (negated <==> !exists k :: 0 <= k < |es| && Matches(names, es[k], p, i, j))
  }

  ghost predicate InTurn(names: Names, es: seq<Re>, p: seq<ASN>, i: nat, j: nat)
    requires i <= j <= |p|
    decreases es, 0
  {
    if es == [] then i == j
    else exists m :: i <= m <= j && Matches(names, es[0], p, i, m) && InTurn(names, es[1..], p, m, j)
  }

  /** k repetitions of e, each the stretch w when same. */
  ghost predicate Times(names: Names, e: Re, k: nat, p: seq<ASN>, i: nat, j: nat, same: bool, w: seq<ASN>)
    requires i <= j <= |p|
    decreases e, k + 1
  {
    if k == 0 then i == j
    else exists m ::
      i <= m <= j && Matches(names, e, p, i, m) && (same ==> p[i..m] == w) && Times(names, e, k - 1, p, m, j, same, w)
  }

  /** A path matches when a stretch of it does. */
  ghost predicate Finds(names: Names, e: Re, p: seq<ASN>) {
    exists i: nat, j: nat :: i <= j <= |p| && Matches(names, e, p, i, j)
  }
}
