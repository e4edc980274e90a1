/** "Matches every path", decided from the syntax tree (resolve/consist/pathall.go:24-178). */
module PathAll {
  import opened Regexps

  predicate HasAnchor(e: Re) {
    match e
    case Start => true
    case End => true
    case Alt(es) => exists k :: 0 <= k < |es| && HasAnchor(es[k])
    case Seq(es) => exists k :: 0 <= k < |es| && HasAnchor(es[k])
    case Repeat(x, _, _, _, _) => HasAnchor(x)
    case Class(_, es) => exists k :: 0 <= k < |es| && HasAnchor(es[k])
    case _ => false
  }

  predicate Nullable(e: Re) {
    match e
    case Alt(es) => exists k :: 0 <= k < |es| && Nullable(es[k])
    case Seq(es) => forall k :: 0 <= k < |es| ==> Nullable(es[k])
    case Repeat(x, _, min, _, _) => min == 0 || Nullable(x)
    case _ => false
  }

  /** e matches every path of one AS, as far as its syntax shows. */
  predicate OnesAll(names: Names, e: Re) {
    match e
    case Any => true
    case SetOf(n) => names.isAny(n) || (n in names.sets && names.sets[n].any_)
    case Class(negated, es) => !negated && exists k :: 0 <= k < |es| && OnesAll(names, es[k])
    case Alt(es) => exists k :: 0 <= k < |es| && OnesAll(names, es[k])
    case Seq(es) =>
      exists k :: 0 <= k < |es| && OnesAll(names, es[k]) && forall j :: 0 <= j < |es| && j != k ==> Nullable(es[j])
    case Repeat(x, _, min, max, _) => min <= 1 && (max == -1 || max >= 1) && OnesAll(names, x)
    case _ => false
  }

  function Terms(e: Re): seq<Re> { if e.Seq? then e.terms else [e] }

  /** e's terms without a leading '^' and a trailing '$', and which of these it had. */
  function Middle(e: Re): (seq<Re>, bool, bool) {
    var ts := Terms(e);
    var left := ts != [] && ts[0].Start?;
    var ts1 := if left then ts[1..] else ts;
    var right := ts1 != [] && ts1[|ts1| - 1].End?;
    (if right then ts1[..|ts1| - 1] else ts1, left, right)
  }

  function Rest(e: Re): Re { var ts := Middle(e).0; if |ts| == 1 then ts[0] else Seq(ts) }

  predicate EveryPath(names: Names, e: Re) {
    !(Middle(e).1 && Middle(e).2) && !HasAnchor(Rest(e)) && (Nullable(Rest(e)) || OnesAll(names, Rest(e)))
  }

  predicate RejectsEveryPath(names: Names, body: Re) {
    if body.Alt? then exists k :: 0 <= k < |body.alts| && EveryPath(names, body.alts[k]) else EveryPath(names, body)
  }

  // ---- the empty path ----

  /** A nullable regexp matches nothing, anywhere. */
  lemma {:induction false} NullableMatches(names: Names, e: Re, p: seq<ASN>, i: nat)
    requires WellFormed(e) && Nullable(e) && i <= |p|
    ensures Matches(names, e, p, i, i)
    decreases e, 0
  {
    match e
    case Alt(es) =>
      var k :| 0 <= k < |es| && Nullable(es[k]);
      NullableMatches(names, es[k], p, i);
    case Seq(es) => NullablesMatch(names, es, p, i);
    case Repeat(x, _, min, _, same) =>
      if min > 0 { NullableMatches(names, x, p, i); }
      NullTimes(names, x, min, p, i, same);
      assert Times(names, x, min, p, i, i, same, []);
  }

  lemma {:induction false} NullablesMatch(names: Names, es: seq<Re>, p: seq<ASN>, i: nat)
    requires (forall k :: 0 <= k < |es| ==> WellFormed(es[k]) && Nullable(es[k])) && i <= |p|
    ensures InTurn(names, es, p, i, i)
    decreases es, 0
  {
    if es != [] {
      NullableMatches(names, es[0], p, i);
      NullablesMatch(names, es[1..], p, i);
    }
  }

  lemma {:induction false} NullTimes(names: Names, e: Re, k: nat, p: seq<ASN>, i: nat, same: bool)
    requires i <= |p| && (k == 0 || Matches(names, e, p, i, i))
    ensures Times(names, e, k, p, i, i, same, [])
    decreases k
  {
    if k > 0 {
      NullTimes(names, e, k - 1, p, i, same);
      assert p[i..i] == [];
    }
  }

  /** Without anchors, only a nullable regexp matches nothing. */
  lemma {:induction false} MatchesNullable(names: Names, e: Re, p: seq<ASN>, i: nat)
    requires WellFormed(e) && !HasAnchor(e) && i <= |p| && Matches(names, e, p, i, i)
    ensures Nullable(e)
    decreases e, 0
  {
    match e
    case Alt(es) =>
      var k :| 0 <= k < |es| && Matches(names, es[k], p, i, i);
      MatchesNullable(names, es[k], p, i);
    case Seq(es) => MatchNullables(names, es, p, i);
    case Repeat(x, _, min, max, same) =>
      var k: nat, w :| min <= k && (max == -1 || k <= max) && Times(names, x, k, p, i, i, same, w);
      if min > 0 { MatchesNullable(names, x, p, i); }
    case _ =>
  }

  lemma {:induction false} MatchNullables(names: Names, es: seq<Re>, p: seq<ASN>, i: nat)
    requires (forall k :: 0 <= k < |es| ==> WellFormed(es[k]) && !HasAnchor(es[k])) && i <= |p|
    requires InTurn(names, es, p, i, i)
    ensures forall k :: 0 <= k < |es| ==> Nullable(es[k])
    decreases es, 0
  {
    if es != [] {
      MatchesNullable(names, es[0], p, i);
      MatchNullables(names, es[1..], p, i);
      assert forall k :: 0 < k < |es| ==> es[k] == es[1..][k - 1];
    }
  }

  // ---- one AS ----

  lemma {:induction false} OnesAllMatches(names: Names, e: Re, p: seq<ASN>, i: nat)
    requires WellFormed(e) && OnesAll(names, e) && i < |p|
    ensures Matches(names, e, p, i, i + 1)
    decreases e, 0
  {
    match e
    case Class(_, es) =>
      var k :| 0 <= k < |es| && OnesAll(names, es[k]);
      OnesAllMatches(names, es[k], p, i);
    case Alt(es) =>
      var k :| 0 <= k < |es| && OnesAll(names, es[k]);
      OnesAllMatches(names, es[k], p, i);
    case Seq(es) =>
      var k :| 0 <= k < |es| && OnesAll(names, es[k]) && forall j :: 0 <= j < |es| && j != k ==> Nullable(es[j]);
      OneInTurn(names, es, k, p, i);
    case Repeat(x, _, _, _, same) =>
      OnesAllMatches(names, x, p, i);
      assert Times(names, x, 0, p, i + 1, i + 1, same, [p[i]]);
      assert p[i..i + 1] == [p[i]];
      assert Times(names, x, 1, p, i, i + 1, same, [p[i]]);
    case _ =>
  }

  /** One term matches the AS, the others nothing. */
  lemma {:induction false} OneInTurn(names: Names, es: seq<Re>, k: nat, p: seq<ASN>, i: nat)
    requires k < |es| && (forall j :: 0 <= j < |es| ==> WellFormed(es[j]) && (j != k ==> Nullable(es[j])))
    requires OnesAll(names, es[k]) && i < |p|
    ensures InTurn(names, es, p, i, i + 1)
    decreases es, 0
  {
    if k == 0 {
      OnesAllMatches(names, es[0], p, i);
      NullablesMatch(names, es[1..], p, i + 1);
    } else {
      NullableMatches(names, es[0], p, i);
      OneInTurn(names, es[1..], k - 1, p, i);
    }
  }

  // ---- without anchors, only the stretch counts ----

  lemma {:induction false} Local(names: Names, e: Re, p: seq<ASN>, i: nat, j: nat, q: seq<ASN>, d: nat)
    requires !HasAnchor(e) && i <= j <= |p| && d + (j - i) <= |q| && p[i..j] == q[d..d + (j - i)]
    requires Matches(names, e, p, i, j)
    ensures Matches(names, e, q, d, d + (j - i))
    decreases e, 0
  {
    match e
    case Alt(es) =>
      var k :| 0 <= k < |es| && Matches(names, es[k], p, i, j);
      Local(names, es[k], p, i, j, q, d);
    case Seq(es) => LocalInTurn(names, es, p, i, j, q, d);
    case Repeat(x, _, min, max, same) =>
      var k: nat, w :| min <= k && (max == -1 || k <= max) && Times(names, x, k, p, i, j, same, w);
      LocalTimes(names, x, k, p, i, j, q, d, same, w);
    case Class(_, es) =>
      forall k | 0 <= k < |es| ensures Matches(names, es[k], p, i, j) <==> Matches(names, es[k], q, d, d + 1) {
        if Matches(names, es[k], p, i, j) { Local(names, es[k], p, i, j, q, d); }
        if Matches(names, es[k], q, d, d + 1) { Local(names, es[k], q, d, d + 1, p, i); }
      }
    case _ => OneStretch(p, i, j, q, d);
  }

  lemma {:induction false} OneStretch(p: seq<ASN>, i: nat, j: nat, q: seq<ASN>, d: nat)
    requires i <= j <= |p| && d + (j - i) <= |q| && p[i..j] == q[d..d + (j - i)]
    ensures j == i + 1 ==> p[i] == q[d]
  {
    if j == i + 1 {
      var x, y := p[i..j], q[d..d + (j - i)];
      assert x[0] == p[i] && y[0] == q[d];
    }
  }

  lemma {:induction false} Slices(p: seq<ASN>, i: nat, m: nat, j: nat)
    requires i <= m <= j <= |p|
    ensures p[i..j] == p[i..m] + p[m..j]
  {
  }

  /** Cutting two equal stretches at the same place. */
  lemma {:induction false} Cut(p: seq<ASN>, i: nat, m: nat, j: nat, q: seq<ASN>, d: nat)
    requires i <= m <= j <= |p| && d + (j - i) <= |q| && p[i..j] == q[d..d + (j - i)]
    ensures p[i..m] == q[d..d + (m - i)] && p[m..j] == q[d + (m - i)..d + (j - i)]
  {
    Slices(p, i, m, j);
    Slices(q, d, d + (m - i), d + (j - i));
    assert p[i..m] == p[i..j][..m - i] && q[d..d + (m - i)] == q[d..d + (j - i)][..m - i];
    assert p[m..j] == p[i..j][m - i..] && q[d + (m - i)..d + (j - i)] == q[d..d + (j - i)][m - i..];
  }

  lemma {:induction false} LocalInTurn(names: Names, es: seq<Re>, p: seq<ASN>, i: nat, j: nat, q: seq<ASN>, d: nat)
    requires (forall k :: 0 <= k < |es| ==> !HasAnchor(es[k])) && i <= j <= |p| && d + (j - i) <= |q|
    requires p[i..j] == q[d..d + (j - i)] && InTurn(names, es, p, i, j)
    ensures InTurn(names, es, q, d, d + (j - i))
    decreases es, 0
  {
    if es != [] {
      var m :| i <= m <= j && Matches(names, es[0], p, i, m) && InTurn(names, es[1..], p, m, j);
      Cut(p, i, m, j, q, d);
      Local(names, es[0], p, i, m, q, d);
      LocalInTurn(names, es[1..], p, m, j, q, d + (m - i));
    }
  }

  lemma {:induction false} LocalTimes(names: Names, e: Re, k: nat, p: seq<ASN>, i: nat, j: nat, q: seq<ASN>, d: nat,
                                      same: bool, w: seq<ASN>)
    requires !HasAnchor(e) && i <= j <= |p| && d + (j - i) <= |q| && p[i..j] == q[d..d + (j - i)]
    requires Times(names, e, k, p, i, j, same, w)
    ensures Times(names, e, k, q, d, d + (j - i), same, w)
    decreases e, k + 1
  {
    if k > 0 {
      var m :| i <= m <= j && Matches(names, e, p, i, m) && (same ==> p[i..m] == w) &&
        Times(names, e, k - 1, p, m, j, same, w);
      Cut(p, i, m, j, q, d);
      Local(names, e, p, i, m, q, d);
      LocalTimes(names, e, k - 1, p, m, j, q, d + (m - i), same, w);
    }
  }

  // ---- every path ----

  ghost predicate FindsEvery(names: Names, e: Re) { forall p :: p != [] ==> Finds(names, e, p) }

  ghost predicate MatchesOnes(names: Names, e: Re) { forall a :: Matches(names, e, [a], 0, 1) }

  /** e matches nothing or every path of one AS: what decides whether it is found in every path. */
  ghost predicate Small(names: Names, e: Re) { Nullable(e) || MatchesOnes(names, e) }

  /** Where a small regexp matches in a path that is not empty: at its start, and at its end. */
  lemma {:induction false} SmallMatches(names: Names, e: Re, p: seq<ASN>)
    requires WellFormed(e) && !HasAnchor(e) && Small(names, e) && p != []
    ensures exists j: nat :: j <= |p| && Matches(names, e, p, 0, j)
    ensures exists i: nat :: i <= |p| && Matches(names, e, p, i, |p|)
  {
    if Nullable(e) {
      NullableMatches(names, e, p, 0);
      NullableMatches(names, e, p, |p|);
    } else {
      var n := |p| - 1;
      assert Matches(names, e, [p[0]], 0, 1) && Matches(names, e, [p[n]], 0, 1);
      assert [p[0]][0..1] == p[0..1] && [p[n]][0..1] == p[n..n + 1];
      Local(names, e, [p[0]], 0, 1, p, 0);
      Local(names, e, [p[n]], 0, 1, p, n);
    }
  }

  /** A regexp found in every one-AS path is small. */
  lemma {:induction false} FoundIsSmall(names: Names, e: Re)
    requires WellFormed(e) && !HasAnchor(e) && forall a :: Finds(names, e, [a])
    ensures Small(names, e)
  {
    if !Nullable(e) {
      forall a ensures Matches(names, e, [a], 0, 1) {
        assert Finds(names, e, [a]);
        var i: nat, j: nat :| i <= j <= 1 && Matches(names, e, [a], i, j);
        assert i < j by {
          if i == j { MatchesNullable(names, e, [a], i); }
        }
      }
    }
  }

  /** An unanchored regexp is found in every path exactly when it is small. */
  lemma {:induction false} UnanchoredEvery(names: Names, e: Re)
    requires WellFormed(e) && !HasAnchor(e)
    ensures FindsEvery(names, e) <==> Small(names, e)
  {
    if FindsEvery(names, e) { FoundIsSmall(names, e); }
    if Small(names, e) {
      forall p | p != [] ensures Finds(names, e, p) { SmallMatches(names, e, p); }
    }
  }

  // ---- one end anchored ----

  lemma {:induction false} FirstOf(names: Names, e: Re, ts: seq<Re>, p: seq<ASN>, i: nat, j: nat) returns (m: nat)
    requires i <= j <= |p| && InTurn(names, [e] + ts, p, i, j)
    ensures i <= m <= j && Matches(names, e, p, i, m) && InTurn(names, ts, p, m, j)
  {
    var es := [e] + ts;
    assert es[0] == e && es[1..] == ts;
    m := FirstMatch(names, es, p, i, j);
  }

  lemma {:induction false} FirstMatch(names: Names, es: seq<Re>, p: seq<ASN>, i: nat, j: nat) returns (m: nat)
    requires i <= j <= |p| && es != [] && InTurn(names, es, p, i, j)
    ensures i <= m <= j && Matches(names, es[0], p, i, m) && InTurn(names, es[1..], p, m, j)
  {
    m :| i <= m <= j && Matches(names, es[0], p, i, m) && InTurn(names, es[1..], p, m, j);
  }

  lemma {:induction false} ThenRest(names: Names, e: Re, ts: seq<Re>, p: seq<ASN>, i: nat, m: nat, j: nat)
    requires i <= m <= j <= |p| && Matches(names, e, p, i, m) && InTurn(names, ts, p, m, j)
    ensures InTurn(names, [e] + ts, p, i, j)
  {
    var es := [e] + ts;
    assert es[0] == e && es[1..] == ts;
  }

  lemma {:induction false} StartFirst(names: Names, ts: seq<Re>, p: seq<ASN>, i: nat, j: nat)
    requires i <= j <= |p|
    ensures InTurn(names, [Start] + ts, p, i, j) <==> i == 0 && InTurn(names, ts, p, 0, j)
  {
    if InTurn(names, [Start] + ts, p, i, j) { var m := FirstOf(names, Start, ts, p, i, j); }
    if i == 0 && InTurn(names, ts, p, 0, j) { ThenRest(names, Start, ts, p, 0, 0, j); }
  }

  lemma {:induction false} StartAnchored(names: Names, ts: seq<Re>, p: seq<ASN>)
    ensures Finds(names, Seq([Start] + ts), p) <==> exists j: nat :: j <= |p| && Matches(names, Seq(ts), p, 0, j)
  {
    var e := Seq([Start] + ts);
    if Finds(names, e, p) {
      var i: nat, j: nat :| i <= j <= |p| && Matches(names, e, p, i, j);
      StartFirst(names, ts, p, i, j);
      assert Matches(names, Seq(ts), p, 0, j);
    }
    if exists j: nat :: j <= |p| && Matches(names, Seq(ts), p, 0, j) {
      var j: nat :| j <= |p| && Matches(names, Seq(ts), p, 0, j);
      StartFirst(names, ts, p, 0, j);
      assert Matches(names, e, p, 0, j);
    }
  }

  lemma {:induction false} EndLast(names: Names, ts: seq<Re>, p: seq<ASN>, i: nat, j: nat)
    requires i <= j <= |p|
    ensures InTurn(names, ts + [End], p, i, j) <==> j == |p| && InTurn(names, ts, p, i, j)
    decreases |ts|
  {
    var es := ts + [End];
    if ts == [] {
      assert es == [End] + [];
      if InTurn(names, es, p, i, j) { var m := FirstOf(names, End, [], p, i, j); }
      if i == j == |p| { ThenRest(names, End, [], p, i, i, j); }
    } else {
      assert es[1..] == ts[1..] + [End] && es[0] == ts[0];
      forall m | i <= m <= j ensures InTurn(names, es[1..], p, m, j) <==> j == |p| && InTurn(names, ts[1..], p, m, j) {
        EndLast(names, ts[1..], p, m, j);
      }
    }
  }

  lemma {:induction false} EndAnchored(names: Names, ts: seq<Re>, p: seq<ASN>)
    ensures Finds(names, Seq(ts + [End]), p) <==> exists i: nat :: i <= |p| && Matches(names, Seq(ts), p, i, |p|)
  {
    var e := Seq(ts + [End]);
    if Finds(names, e, p) {
      var i: nat, j: nat :| i <= j <= |p| && Matches(names, e, p, i, j);
      EndLast(names, ts, p, i, j);
      assert Matches(names, Seq(ts), p, i, |p|);
    }
    if exists i: nat :: i <= |p| && Matches(names, Seq(ts), p, i, |p|) {
      var i: nat :| i <= |p| && Matches(names, Seq(ts), p, i, |p|);
      EndLast(names, ts, p, i, |p|);
      assert Matches(names, e, p, i, |p|);
    }
  }

  /** '^' or '$' before or after an unanchored regexp changes nothing about whether it is found in every
      path. */
  lemma {:induction false} OneSidedEvery(names: Names, ts: seq<Re>)
    requires WellFormed(Seq(ts)) && !HasAnchor(Seq(ts))
    ensures FindsEvery(names, Seq([Start] + ts)) <==> Small(names, Seq(ts))
    ensures FindsEvery(names, Seq(ts + [End])) <==> Small(names, Seq(ts))
  {
    forall p
      ensures Finds(names, Seq([Start] + ts), p) <==> exists j: nat :: j <= |p| && Matches(names, Seq(ts), p, 0, j)
    {
      StartAnchored(names, ts, p);
    }
    forall p
      ensures Finds(names, Seq(ts + [End]), p) <==> exists i: nat :: i <= |p| && Matches(names, Seq(ts), p, i, |p|)
    {
      EndAnchored(names, ts, p);
    }
    if Small(names, Seq(ts)) {
      forall p | p != [] ensures Finds(names, Seq([Start] + ts), p) && Finds(names, Seq(ts + [End]), p) {
        SmallMatches(names, Seq(ts), p);
      }
    }
    if FindsEvery(names, Seq([Start] + ts)) || FindsEvery(names, Seq(ts + [End])) {
      forall a ensures Finds(names, Seq(ts), [a]) {
        assert Finds(names, Seq([Start] + ts), [a]) || Finds(names, Seq(ts + [End]), [a]);
      }
      FoundIsSmall(names, Seq(ts));
    }
  }

  // ---- the analysis ----

  lemma {:induction false} OneTerm(names: Names, e: Re, p: seq<ASN>, i: nat, j: nat)
    requires i <= j <= |p|
    ensures Matches(names, Seq([e]), p, i, j) <==> Matches(names, e, p, i, j)
  {
    assert [e] == [e] + [];
    if InTurn(names, [e], p, i, j) { var m := FirstOf(names, e, [], p, i, j); }
    if Matches(names, e, p, i, j) { ThenRest(names, e, [], p, i, j, j); }
  }

  /** A term and the sequence of it alone are the same regexp. */
  lemma {:induction false} SeqOfOne(names: Names, ts: seq<Re>)
    requires WellFormed(Seq(ts))
    ensures var rest := if |ts| == 1 then ts[0] else Seq(ts);
            WellFormed(rest) && (HasAnchor(rest) <==> HasAnchor(Seq(ts))) && (Nullable(rest) <==> Nullable(Seq(ts))) &&
            (MatchesOnes(names, rest) <==> MatchesOnes(names, Seq(ts)))
  {
    if |ts| == 1 {
      assert ts == [ts[0]];
      forall a
        ensures Matches(names, ts[0], [a], 0, 1) <==> Matches(names, Seq(ts), [a], 0, 1)
      {
        OneTerm(names, ts[0], [a], 0, 1);
      }
    }
  }

  predicate AllWellFormed(ts: seq<Re>) { forall k :: 0 <= k < |ts| ==> WellFormed(ts[k]) }

  lemma {:induction false} Trimmed(ts: seq<Re>)
    requires AllWellFormed(ts) && ts != []
    ensures AllWellFormed(ts[1..]) && AllWellFormed(ts[..|ts| - 1])
  {
  }

  lemma {:induction false} MiddleShape(e: Re)
    ensures var (ts, left, right) :=
            Middle(e); Terms(e) == (if left then [Start] else []) + ts + (if right then [End] else [])
  {
    var all := Terms(e);
    var ts1 := if all != [] && all[0].Start? then all[1..] else all;
    assert all == (if all != [] && all[0].Start? then [Start] else []) + ts1;
  }

  lemma {:induction false} MiddleWellFormed(e: Re)
    requires WellFormed(e)
    ensures WellFormed(Seq(Middle(e).0))
  {
    var all := Terms(e);
    assert AllWellFormed(all);
    var ts1 := if all != [] && all[0].Start? then all[1..] else all;
    if all != [] { Trimmed(all); }
    if ts1 != [] { Trimmed(ts1); }
    assert AllWellFormed(Middle(e).0);
  }

  lemma {:induction false} SameFinds(names: Names, e: Re)
    ensures FindsEvery(names, e) <==> FindsEvery(names, Seq(Terms(e)))
  {
    if !e.Seq? {
      forall p ensures Finds(names, e, p) <==> Finds(names, Seq([e]), p) {
        forall i: nat, j: nat | i <= j <= |p|
          ensures Matches(names, e, p, i, j) <==> Matches(names, Seq([e]), p, i, j)
        {
          OneTerm(names, e, p, i, j);
        }
      }
    }
  }

  /** With at most one end anchored and no anchor between, e is found in every path that is not empty
      exactly when what is left of it matches the empty path or every path of one AS. */
  lemma {:induction false} EveryPathIff(names: Names, e: Re)
    requires WellFormed(e) && !(Middle(e).1 && Middle(e).2) && !HasAnchor(Seq(Middle(e).0))
    ensures FindsEvery(names, e) <==> Small(names, Seq(Middle(e).0))
  {
    var (ts, left, right) := Middle(e);
    MiddleShape(e);
    MiddleWellFormed(e);
    SameFinds(names, e);
    var all := Terms(e);
    if left {
      assert all == [Start] + ts;
      OneSidedEvery(names, ts);
    } else if right {
      assert all == ts + [End];
      OneSidedEvery(names, ts);
    } else {
      assert all == ts;
      UnanchoredEvery(names, Seq(ts));
    }
  }

  lemma {:induction false} EveryPathSound(names: Names, e: Re)
    requires WellFormed(e) && EveryPath(names, e)
    ensures FindsEvery(names, e)
  {
    MiddleWellFormed(e);
    SeqOfOne(names, Middle(e).0);
    var rest := Rest(e);
    if OnesAll(names, rest) {
      forall a ensures Matches(names, rest, [a], 0, 1) { OnesAllMatches(names, rest, [a], 0); }
      assert MatchesOnes(names, rest);
    }
    assert Small(names, Seq(Middle(e).0));
    EveryPathIff(names, e);
  }

  /** Soundness: a regexp said to reject every path matches every path that is not empty. */
  lemma {:induction false} RejectsEveryPathSound(names: Names, body: Re, p: seq<ASN>)
    requires WellFormed(body) && RejectsEveryPath(names, body) && p != []
    ensures Finds(names, body, p)
  {
    if body.Alt? {
      var k :| 0 <= k < |body.alts| && EveryPath(names, body.alts[k]);
      EveryPathSound(names, body.alts[k]);
      assert Finds(names, body.alts[k], p);
      var i: nat, j: nat :| i <= j <= |p| && Matches(names, body.alts[k], p, i, j);
      assert Matches(names, body, p, i, j);
    } else {
      EveryPathSound(names, body);
    }
  }
}
