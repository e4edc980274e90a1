/** Where "matches every path" is exact (resolve/consist/pathall.go:24-178): an AS that nothing in a regexp names
    tells what it matches from its syntax. */
module PathExact {
  import opened Regexps
  import opened PathAll

  /** Nothing in e but a set of every AS holds an AS that e does not name: no class is negated, no template is of
      every AS, there is no range; and what a class lists matches one AS, as it does when parsed. */
  predicate Definite(names: Names, e: Re) {
    match e
    case Alt(es) => forall k :: 0 <= k < |es| ==> Definite(names, es[k])
    case Seq(es) => forall k :: 0 <= k < |es| ==> Definite(names, es[k])
    case Repeat(x, _, _, _, _) => Definite(names, x)
    case Class(negated, es) => !negated && forall k :: 0 <= k < |es| ==> Definite(names, es[k]) && !Nullable(es[k])
    case TemplateOf(t) => !names.template(t).any_
    case AsRange(_, _) => false
    case _ => true
  }

  /** e does not name a. */
  predicate Unnamed(names: Names, e: Re, a: ASN) {
    match e
    case Alt(es) => forall k :: 0 <= k < |es| ==> Unnamed(names, es[k], a)
    case Seq(es) => forall k :: 0 <= k < |es| ==> Unnamed(names, es[k], a)
    case Repeat(x, _, _, _, _) => Unnamed(names, x, a)
    case Class(_, es) => forall k :: 0 <= k < |es| ==> Unnamed(names, es[k], a)
    case As(b) => a != b
    case SetOf(n) => n in names.sets ==> a !in names.sets[n].members
    case TemplateOf(t) => a !in names.template(t).members
    case Peer => a != names.peer
    case _ => true
  }

  /** Every AS from n on is one e does not name. */
  ghost predicate UnnamedFrom(names: Names, e: Re, n: nat) { forall a :: a >= n ==> Unnamed(names, e, a) }

  lemma {:induction false} Above(s: set<ASN>) returns (n: nat)
    ensures forall a :: a in s ==> a < n
    decreases |s|
  {
    if s == {} {
      n := 0;
    } else {
      var b :| b in s;
      n := Above(s - {b});
      if b >= n { n := b + 1; }
      forall a | a in s ensures a < n { assert a == b || a in s - {b}; }
    }
  }

  lemma {:induction false} SomeUnnamed(names: Names, e: Re) returns (n: nat)
    ensures UnnamedFrom(names, e, n)
    decreases e, 0
  {
    match e
    case Alt(es) => n := AllUnnamed(names, es);
    case Seq(es) => n := AllUnnamed(names, es);
    case Repeat(x, _, _, _, _) => n := SomeUnnamed(names, x);
    case Class(_, es) => n := AllUnnamed(names, es);
    case As(b) => n := b + 1;
    case SetOf(x) => n := Above(if x in names.sets then names.sets[x].members else {});
    case TemplateOf(t) => n := Above(names.template(t).members);
    case Peer => n := names.peer + 1;
    case _ => n := 0;
  }

  lemma {:induction false} AllUnnamed(names: Names, es: seq<Re>) returns (n: nat)
    ensures forall k :: 0 <= k < |es| ==> UnnamedFrom(names, es[k], n)
    decreases es, 0
  {
    if es == [] {
      n := 0;
    } else {
      var m := SomeUnnamed(names, es[0]);
      n := AllUnnamed(names, es[1..]);
      if m > n { n := m; }
      forall k | 0 <= k < |es| ensures UnnamedFrom(names, es[k], n) {
        if k > 0 { assert es[k] == es[1..][k - 1]; }
      }
    }
  }

  // ---- what matches an AS that is not named ----

  lemma {:induction false} UnnamedOnes(names: Names, e: Re, a: ASN)
    requires WellFormed(e) && !HasAnchor(e) && Definite(names, e) && Unnamed(names, e, a) && !Nullable(e)
    requires Matches(names, e, [a], 0, 1)
    ensures OnesAll(names, e)
    decreases e, 0
  {
    match e
    case Alt(es) =>
      var k :| 0 <= k < |es| && Matches(names, es[k], [a], 0, 1);
      UnnamedOnes(names, es[k], a);
    case Seq(es) =>
      var k := OneTakesIt(names, es, a);
      UnnamedOnes(names, es[k], a);
    case Repeat(x, _, min, max, same) =>
      var k: nat, w :| min <= k && (max == -1 || k <= max) && Times(names, x, k, [a], 0, 1, same, w);
      TimesOnce(names, x, k, a, same, w);
      UnnamedOnes(names, x, a);
    case Class(_, es) =>
      var k :| 0 <= k < |es| && Matches(names, es[k], [a], 0, 1);
      UnnamedOnes(names, es[k], a);
    case _ =>
  }

  /** Of terms that match one AS in turn, one matches it and the others nothing. */
  lemma {:induction false} OneTakesIt(names: Names, es: seq<Re>, a: ASN) returns (k: nat)
    requires (forall k :: 0 <= k < |es| ==> WellFormed(es[k]) && !HasAnchor(es[k])) && InTurn(names, es, [a], 0, 1)
    ensures k < |es| && Matches(names, es[k], [a], 0, 1) && forall j :: 0 <= j < |es| && j != k ==> Nullable(es[j])
    decreases es, 0
  {
    var m := FirstMatch(names, es, [a], 0, 1);
    if m == 0 {
      MatchesNullable(names, es[0], [a], 0);
      var i := OneTakesIt(names, es[1..], a);
      k := i + 1;
      forall j | 0 <= j < |es| && j != k ensures Nullable(es[j]) {
        if j > 0 { assert es[j] == es[1..][j - 1]; }
      }
    } else {
      k := 0;
      MatchNullables(names, es[1..], [a], 1);
      forall j | 0 < j < |es| ensures Nullable(es[j]) { assert es[j] == es[1..][j - 1]; }
    }
  }

  lemma {:induction false} TimesOnce(names: Names, x: Re, k: nat, a: ASN, same: bool, w: seq<ASN>)
    requires WellFormed(x) && !HasAnchor(x) && !Nullable(x) && Times(names, x, k, [a], 0, 1, same, w)
    ensures k == 1 && Matches(names, x, [a], 0, 1)
  {
    var m := FirstTime(names, x, k, [a], 0, 1, same, w);
    if m == 0 { MatchesNullable(names, x, [a], 0); }
    if k > 1 {
      var m' := FirstTime(names, x, k - 1, [a], 1, 1, same, w);
      MatchesNullable(names, x, [a], 1);
    }
  }

  lemma {:induction false} FirstTime(names: Names, x: Re, k: nat, p: seq<ASN>, i: nat, j: nat, same: bool, w: seq<ASN>)
    returns (m: nat)
    requires k > 0 && i <= j <= |p| && Times(names, x, k, p, i, j, same, w)
    ensures i <= m <= j && Matches(names, x, p, i, m) && Times(names, x, k - 1, p, m, j, same, w)
  {
    m :| i <= m <= j && Matches(names, x, p, i, m) && (same ==> p[i..m] == w) &&
      Times(names, x, k - 1, p, m, j, same, w);
  }

  /** On these, the syntax shows exactly whether a regexp that does not match nothing matches every AS. */
  lemma {:induction false} OnesAllExact(names: Names, e: Re)
    requires WellFormed(e) && !HasAnchor(e) && Definite(names, e) && !Nullable(e)
    ensures OnesAll(names, e) <==> MatchesOnes(names, e)
  {
    if OnesAll(names, e) {
      forall a ensures Matches(names, e, [a], 0, 1) { OnesAllMatches(names, e, [a], 0); }
    }
    if MatchesOnes(names, e) {
      var a := SomeUnnamed(names, e);
      assert Unnamed(names, e, a) && Matches(names, e, [a], 0, 1);
      UnnamedOnes(names, e, a);
    }
  }

  /** It does not when a regexp matches nothing too: (.*){2} matches every AS. */
  lemma {:induction false} OnesAllMisses(names: Names)
    ensures var e := Repeat(Repeat(Any, Star, 0, -1, false), Range, 2, 2, false);
            WellFormed(e) && Definite(names, e) && Nullable(e) && MatchesOnes(names, e) && !OnesAll(names, e)
  {
    var x := Repeat(Any, Star, 0, -1, false);
    var e := Repeat(x, Range, 2, 2, false);
    forall a ensures Matches(names, e, [a], 0, 1) {
      OnesAllMatches(names, x, [a], 0);
      NullableMatches(names, x, [a], 1);
      assert Times(names, x, 0, [a], 1, 1, false, []);
      assert Times(names, x, 1, [a], 1, 1, false, []);
      assert Times(names, x, 2, [a], 0, 1, false, []);
    }
  }

  // ---- the analysis ----

  /** At most one end is anchored, and nothing between. */
  predicate Sided(e: Re) { !(Middle(e).1 && Middle(e).2) && !HasAnchor(Rest(e)) }

  /** A term found in the path of an AS that it does not name is found in every path. */
  lemma {:induction false} FoundUnnamed(names: Names, e: Re, a: ASN)
    requires WellFormed(e) && Definite(names, e) && Sided(e) && Unnamed(names, e, a) && Finds(names, e, [a])
    ensures EveryPath(names, e)
  {
    var ts := Middle(e).0;
    MiddleWellFormed(e);
    SeqOfOne(names, ts);
    MiddleParts(names, e, a);
    var rest := Rest(e);
    if !Nullable(rest) {
      MiddleFound(names, e, a);
      if |ts| == 1 {
        assert ts == [ts[0]];
        OneTerm(names, ts[0], [a], 0, 1);
      }
      UnnamedOnes(names, rest, a);
    }
  }

  lemma {:induction false} MiddleParts(names: Names, e: Re, a: ASN)
    requires Definite(names, e) && Unnamed(names, e, a)
    ensures Definite(names, Rest(e)) && Unnamed(names, Rest(e), a)
  {
    var all := Terms(e);
    assert AllUnaware(names, all, a);
    var ts1 := if all != [] && all[0].Start? then all[1..] else all;
    if all != [] { Sliced(names, all, a); }
    if ts1 != [] { Sliced(names, ts1, a); }
    assert AllUnaware(names, Middle(e).0, a);
  }

  predicate AllUnaware(names: Names, ts: seq<Re>, a: ASN) {
    forall k :: 0 <= k < |ts| ==> Definite(names, ts[k]) && Unnamed(names, ts[k], a)
  }

  lemma {:induction false} Sliced(names: Names, ts: seq<Re>, a: ASN)
    requires AllUnaware(names, ts, a) && ts != []
    ensures AllUnaware(names, ts[1..], a) && AllUnaware(names, ts[..|ts| - 1], a)
  {
  }

  /** What is between the anchors takes the one AS, unless it matches nothing. */
  lemma {:induction false} MiddleFound(names: Names, e: Re, a: ASN)
    requires WellFormed(e) && Sided(e) && Finds(names, e, [a]) && !Nullable(Seq(Middle(e).0))
    requires WellFormed(Seq(Middle(e).0)) && !HasAnchor(Seq(Middle(e).0))
    ensures Matches(names, Seq(Middle(e).0), [a], 0, 1)
  {
    var (ts, left, right) := Middle(e);
    MiddleShape(e);
    var i: nat, j: nat;
    if left {
      assert Terms(e) == [Start] + ts;
      TermsFound(names, e, [a]);
      StartAnchored(names, ts, [a]);
      i, j :| i == 0 && j <= 1 && Matches(names, Seq(ts), [a], i, j);
    } else if right {
      assert Terms(e) == ts + [End];
      TermsFound(names, e, [a]);
      EndAnchored(names, ts, [a]);
      i, j :| i <= 1 == j && Matches(names, Seq(ts), [a], i, j);
    } else {
      assert Terms(e) == ts;
      TermsFound(names, e, [a]);
      i, j :| i <= j <= 1 && Matches(names, Seq(ts), [a], i, j);
    }
    if i == j { MatchesNullable(names, Seq(ts), [a], i); }
  }

  lemma {:induction false} TermsFound(names: Names, e: Re, p: seq<ASN>)
    requires Finds(names, e, p)
    ensures Finds(names, Seq(Terms(e)), p)
  {
    if !e.Seq? {
      var i: nat, j: nat :| i <= j <= |p| && Matches(names, e, p, i, j);
      OneTerm(names, e, p, i, j);
    }
  }

  /** What RejectsEveryPath looks at one by one. */
  function Branches(body: Re): seq<Re> { if body.Alt? then body.alts else [body] }

  /** On regexps of definite parts, no branch of which is anchored at both ends or inside, the answer is whether
      every path that is not empty is matched. */
  lemma {:induction false} RejectsExact(names: Names, body: Re)
    requires WellFormed(body) && Definite(names, body)
    requires forall k :: 0 <= k < |Branches(body)| ==> Sided(Branches(body)[k])
    ensures RejectsEveryPath(names, body) <==> FindsEvery(names, body)
  {
    if RejectsEveryPath(names, body) {
      forall p | p != [] ensures Finds(names, body, p) { RejectsEveryPathSound(names, body, p); }
    }
    if FindsEvery(names, body) {
      var a := SomeUnnamed(names, body);
      assert Unnamed(names, body, a) && Finds(names, body, [a]);
      var i: nat, j: nat :| i <= j <= 1 && Matches(names, body, [a], i, j);
      if body.Alt? {
        var k :| 0 <= k < |body.alts| && Matches(names, body.alts[k], [a], i, j);
        assert Branches(body)[k] == body.alts[k];
        FoundUnnamed(names, body.alts[k], a);
      } else {
        assert Branches(body)[0] == body;
        FoundUnnamed(names, body, a);
      }
    }
  }
}
