/** Conjuncts of a normal form: conjoining, distributing, and the final pruning
    (resolve/normalize.go:186-192, 394-505, 600-718). */
module Conjuncts {
  import opened Prefixes
  import opened RangeIndex
  import opened Filters

  /** A test with a sign: a route satisfies it by passing, or under negation by failing. */
  datatype Signed = Signed(negated: bool, test: Test) {
    predicate Holds(tau: Tests) { tau(test) != negated }
  }

  /** A conjunct being built; no pos is no prefix constraint. */
  datatype NConj = NConj(pos: Option<Ranges>, neg: Ranges, paths: seq<Signed>, comms: seq<Signed>) {
    predicate Valid(afi: Afi) { (pos.Some? ==> Good(afi, pos.value)) && Good(afi, neg) }
  }

  predicate AllHold(ts: seq<Signed>, tau: Tests) { forall t :: t in ts ==> t.Holds(tau) }

  ghost predicate Accepts(c: NConj, tau: Tests, q: Prefix) {
    && (c.pos.Some? ==> RangesDenote(c.pos.value, q)) && !RangesDenote(c.neg, q)
    && AllHold(c.paths, tau) && AllHold(c.comms, tau)
  }

  ghost predicate AcceptsAny(cs: seq<NConj>, tau: Tests, q: Prefix) { exists c :: c in cs && Accepts(c, tau, q) }

  predicate AllConj(cs: seq<NConj>, afi: Afi) { forall c :: c in cs ==> c.Valid(afi) }

  lemma AcceptsAnyAppend(a: seq<NConj>, b: seq<NConj>, tau: Tests, q: Prefix)
    ensures AcceptsAny(a + b, tau, q) <==> AcceptsAny(a, tau, q) || AcceptsAny(b, tau, q)
  {
    if AcceptsAny(a, tau, q) {
      var c :| c in a && Accepts(c, tau, q);
      assert c in a + b;
    }
    if AcceptsAny(b, tau, q) {
      var c :| c in b && Accepts(c, tau, q);
      assert c in a + b;
    }
  }

  lemma AcceptsOne(c: NConj, tau: Tests, q: Prefix)
    ensures AcceptsAny([c], tau, q) <==> Accepts(c, tau, q)
  {
    assert c in [c];
  }

  // ---- merge and product ----

  predicate Distinct(ts: seq<Signed>) { forall i, j :: 0 <= i < j < |ts| ==> ts[i] != ts[j] }

  /** The tests of both, each kept once. */
  method MergeTests(xs: seq<Signed>, ys: seq<Signed>) returns (out: seq<Signed>)
    ensures forall t :: t in out <==> t in xs || t in ys
    ensures xs <= out && (Distinct(xs) ==> Distinct(out))
  {
    out := xs;
    var seen := set t | t in xs;
    for i := 0 to |ys|
      invariant xs <= out && (forall t :: t in out <==> t in xs || t in ys[..i]) && seen == set t | t in out
      invariant Distinct(xs) ==> Distinct(out)
    {
      assert ys[..i + 1] == ys[..i] + [ys[i]];
      if ys[i] !in seen {
        seen, out := seen + {ys[i]}, out + [ys[i]];
      }
    }
  }

  /** The conjunction of two conjuncts, or None when their prefixes do not meet. */
  method Merge(afi: Afi, x: NConj, y: NConj) returns (c: Option<NConj>)
    requires x.Valid(afi) && y.Valid(afi)
    ensures c.Some? ==> c.value.Valid(afi)
    ensures forall tau: Tests, q: Prefix :: (Accepts(x, tau, q) && Accepts(y, tau, q)) <==>
            (c.Some? && Accepts(c.value, tau, q))
  {
    var paths := MergeTests(x.paths, y.paths);
    var comms := MergeTests(x.comms, y.comms);
    var pos := if x.pos.None? then y.pos else x.pos;
    if x.pos.Some? && y.pos.Some? {
      var p := IntersectRanges(x.pos.value, y.pos.value);
      if p == {} { return None; }
      pos := Some(p);
    }
    c := Some(NConj(pos, x.neg + y.neg, paths, comms));
    forall q: Prefix ensures RangesDenote(x.neg + y.neg, q) <==> RangesDenote(x.neg, q) || RangesDenote(y.neg, q) {
      UnionDenotes(x.neg, y.neg, q);
    }
  }

  /** x conjoined with each of ys, less what meets in no prefix. */
  method MergeEach(afi: Afi, x: NConj, ys: seq<NConj>) returns (out: seq<NConj>)
    requires x.Valid(afi) && AllConj(ys, afi)
    ensures AllConj(out, afi)
    ensures forall tau: Tests, q: Prefix :: AcceptsAny(out, tau, q) <==> Accepts(x, tau, q) && AcceptsAny(ys, tau, q)
  {
    out := [];
    for i := 0 to |ys|
      invariant AllConj(out, afi)
      invariant forall tau: Tests, q: Prefix :: AcceptsAny(out, tau, q) <==>
                Accepts(x, tau, q) && AcceptsAny(ys[..i], tau, q)
    {
      var c := Merge(afi, x, ys[i]);
      ghost var before := out;
      if c.Some? { out := out + [c.value]; }
      forall tau: Tests, q: Prefix
        ensures AcceptsAny(out, tau, q) <==> Accepts(x, tau, q) && AcceptsAny(ys[..i + 1], tau, q)
      {
        assert ys[..i + 1] == ys[..i] + [ys[i]];
        AcceptsAnyAppend(ys[..i], [ys[i]], tau, q);
        AcceptsOne(ys[i], tau, q);
        if c.Some? {
          AcceptsAnyAppend(before, [c.value], tau, q);
          AcceptsOne(c.value, tau, q);
        }
      }
    }
    assert ys[..|ys|] == ys;
  }

  ghost predicate AcceptsEach(parts: seq<seq<NConj>>, tau: Tests, q: Prefix) {
    forall p :: p in parts ==> AcceptsAny(p, tau, q)
  }

  /** One step of the product: every conjunct of acc with every one of p. */
  method Distribute(afi: Afi, acc: seq<NConj>, p: seq<NConj>) returns (next: seq<NConj>)
    requires AllConj(acc, afi) && AllConj(p, afi)
    ensures AllConj(next, afi)
    ensures forall tau: Tests, q: Prefix :: AcceptsAny(next, tau, q) <==>
            AcceptsAny(acc, tau, q) && AcceptsAny(p, tau, q)
  {
    next := [];
    for i := 0 to |acc|
      invariant AllConj(next, afi)
      invariant forall tau: Tests, q: Prefix :: AcceptsAny(next, tau, q) <==>
                AcceptsAny(acc[..i], tau, q) && AcceptsAny(p, tau, q)
    {
      var more := MergeEach(afi, acc[i], p);
      forall tau: Tests, q: Prefix
        ensures AcceptsAny(next + more, tau, q) <==> AcceptsAny(acc[..i + 1], tau, q) && AcceptsAny(p, tau, q)
      {
        assert acc[..i + 1] == acc[..i] + [acc[i]];
        AcceptsAnyAppend(acc[..i], [acc[i]], tau, q);
        AcceptsOne(acc[i], tau, q);
        AcceptsAnyAppend(next, more, tau, q);
      }
      next := next + more;
    }
    assert acc[..|acc|] == acc;
  }

  /** The conjunction of disjunctions, distributed. */
  method Product(afi: Afi, parts: seq<seq<NConj>>) returns (acc: seq<NConj>)
    requires forall p :: p in parts ==> AllConj(p, afi)
    ensures AllConj(acc, afi)
    ensures forall tau: Tests, q: Prefix :: AcceptsAny(acc, tau, q) <==> AcceptsEach(parts, tau, q)
  {
    var unit := NConj(None, {}, [], []);
    acc := [unit];
    forall tau: Tests, q: Prefix ensures AcceptsAny(acc, tau, q) { AcceptsOne(unit, tau, q); }
    for i := 0 to |parts|
      invariant AllConj(acc, afi)
      invariant forall tau: Tests, q: Prefix :: AcceptsAny(acc, tau, q) <==> AcceptsEach(parts[..i], tau, q)
    {
      assert parts[i] in parts && parts[..i + 1] == parts[..i] + [parts[i]];
      var next := Distribute(afi, acc, parts[i]);
      forall tau: Tests, q: Prefix ensures AcceptsAny(next, tau, q) <==> AcceptsEach(parts[..i + 1], tau, q) {
        assert AcceptsEach(parts[..i + 1], tau, q) <==> AcceptsEach(parts[..i], tau, q) && AcceptsAny(parts[i], tau, q);
      }
      acc := next;
      if acc == [] {
        forall tau: Tests, q: Prefix ensures !AcceptsEach(parts, tau, q) {
          assert !AcceptsAny(acc, tau, q) && !AcceptsEach(parts[..i + 1], tau, q);
          assert forall p :: p in parts[..i + 1] ==> p in parts;
        }
        return;
      }
    }
    assert parts[..|parts|] == parts;
  }

  // ---- finish ----

  /** A conjunct of the answer: its prefix lies in prefixes and not in notPrefixes, and the tests hold;
      any says prefixes is every prefix of the family. */
  datatype Conjunct = Conjunct(prefixes: Ranges, notPrefixes: Ranges, paths: seq<Signed>, comms: seq<Signed>,
                               any: bool) {
    ghost predicate Matches(tau: Tests, q: Prefix) {
      RangesDenote(prefixes, q) && !RangesDenote(notPrefixes, q) && AllHold(paths, tau) && AllHold(comms, tau)
    }

    /** What its rendering shows: a prefix list that is everything does not appear. */
    function Text(): ConjText { ConjText(if any then None else Some(prefixes), notPrefixes, paths, comms) }
  }

  datatype ConjText = ConjText(prefixes: Option<Ranges>, notPrefixes: Ranges, paths: seq<Signed>, comms: seq<Signed>)

  ghost predicate MatchesAny(ks: seq<Conjunct>, tau: Tests, q: Prefix) { exists k :: k in ks && k.Matches(tau, q) }

  /** The positive ranges that lie wholly inside a negated one. */
  method CoveredRanges(pos: Ranges, neg: Ranges) returns (covered: Ranges)
    requires AllValid(pos) && AllValid(neg)
    ensures forall x :: x in covered <==> x in pos && exists y :: y in neg && Intersect(x, y) == Some(x)
  {
    var pairs := NestingPairs(pos, neg);
    assert forall pr :: pr in pairs ==> (pr.0, pr.1) in pairs;
    covered := set pr | pr in pairs && pr.0.Valid() && pr.1.Valid() && Intersect(pr.0, pr.1) == Some(pr.0) :: pr.0;
    forall x, y | x in pos && y in neg && Intersect(x, y) == Some(x) ensures x in covered { assert (x, y) in pairs; }
  }

  /** The negated ranges that meet a positive one. */
  method MeetingRanges(neg: Ranges, pos: Ranges) returns (meeting: Ranges)
    requires AllValid(pos) && AllValid(neg)
    ensures forall y :: y in meeting <==> y in neg && exists x :: x in pos && Intersect(y, x).Some?
  {
    var pairs := NestingPairs(neg, pos);
    assert forall pr :: pr in pairs ==> (pr.0, pr.1) in pairs;
    meeting := set pr | pr in pairs && pr.0.Valid() && pr.1.Valid() && Intersect(pr.0, pr.1).Some? :: pr.0;
    forall y, x | y in neg && x in pos && Intersect(y, x).Some? ensures y in meeting { assert (y, x) in pairs; }
  }

  /** Dropping covered positive ranges, then negated ranges that meet none left, changes nothing. */
  lemma PruningKeeps(pos: Ranges, neg: Ranges, covered: Ranges, meeting: Ranges, q: Prefix)
    requires AllValid(pos) && AllValid(neg)
    requires forall x :: x in covered <==> x in pos && exists y :: y in neg && Intersect(x, y) == Some(x)
    requires forall y :: y in meeting <==> y in neg && exists x :: x in pos - covered && Intersect(y, x).Some?
    ensures RangesDenote(pos - covered, q) && !RangesDenote(meeting, q) <==>
            RangesDenote(pos, q) && !RangesDenote(neg, q)
  {
    if RangesDenote(pos, q) && !RangesDenote(neg, q) {
      var x :| x in pos && x.Denotes(q);
      assert x !in covered by {
        forall y | y in neg ensures Intersect(x, y) != Some(x) { assert !y.Denotes(q); }
      }
    }
    if RangesDenote(pos - covered, q) && RangesDenote(neg, q) {
      var x :| x in pos - covered && x.Denotes(q);
      var y :| y in neg && y.Denotes(q);
      assert Intersect(y, x).Some?;
      assert y in meeting;
    }
  }

  method Prune(pos: Ranges, neg: Ranges) returns (pos': Ranges, neg': Ranges)
    requires AllValid(pos) && AllValid(neg)
    ensures pos' <= pos && neg' <= neg && forall y :: y in neg' ==> exists x :: x in pos' && Intersect(y, x).Some?
    ensures forall q: Prefix :: RangesDenote(pos', q) && !RangesDenote(neg', q) <==>
            RangesDenote(pos, q) && !RangesDenote(neg, q)
  {
    var covered := CoveredRanges(pos, neg);
    pos' := pos - covered;
    neg' := MeetingRanges(neg, pos');
    forall q: Prefix
      ensures RangesDenote(pos', q) && !RangesDenote(neg', q) <==> RangesDenote(pos, q) && !RangesDenote(neg, q)
    {
      PruningKeeps(pos, neg, covered, neg', q);
    }
  }

  /** A conjunct with prefixes and none negated, as it is finished. */
  function Plain(afi: Afi, c: NConj): Conjunct
    requires c.pos.Some?
  {
    Conjunct(c.pos.value, {}, c.paths, c.comms, Everything(afi) <= c.pos.value)
  }

  /** One conjunct finished: None when it then matches no prefix. */
  method FinishOne(afi: Afi, c: NConj) returns (k: Option<Conjunct>)
    requires c.Valid(afi)
    ensures k.Some? ==> k.value.prefixes != {} && k.value.any == (Everything(afi) <= k.value.prefixes)
    ensures k.Some? ==> AllValid(k.value.prefixes) && AllValid(k.value.notPrefixes)
    ensures k.Some? ==> forall y :: y in k.value.notPrefixes ==>
            exists x :: x in k.value.prefixes && Intersect(y, x).Some?
    ensures c.pos.Some? && c.pos.value != {} && c.neg == {} ==> k == Some(Plain(afi, c))
    ensures forall tau: Tests, q: Prefix :: q.Valid() && afi.Allows(q.family) ==>
              (Accepts(c, tau, q) <==> k.Some? && k.value.Matches(tau, q))
  {
    var pos := if c.pos.None? then Everything(afi) else c.pos.value;
    forall q: Prefix | q.Valid() && afi.Allows(q.family)
      ensures c.pos.None? ==> RangesDenote(pos, q)
    {
      EverythingDenotes(afi, q);
    }
    var neg: Ranges := {};
    if c.neg != {} {
      pos, neg := Prune(pos, c.neg);
    }
    if pos == {} { return None; }
    return Some(Conjunct(pos, neg, c.paths, c.comms, Everything(afi) <= pos));
  }

  /** finish's test for a repeat: the counts first, the text only if they agree. */
  predicate SameText(kept: Conjunct, k: Conjunct) {
    kept.any == k.any && (k.any || |kept.prefixes| == |k.prefixes|) &&
      |kept.notPrefixes| == |k.notPrefixes| && kept.Text() == k.Text()
  }

  lemma SameTextMatches(afi: Afi, a: Conjunct, b: Conjunct, tau: Tests, q: Prefix)
    requires a.Text() == b.Text() && q.Valid() && afi.Allows(q.family)
    requires a.any == (Everything(afi) <= a.prefixes) && b.any == (Everything(afi) <= b.prefixes)
    ensures a.Matches(tau, q) <==> b.Matches(tau, q)
  {
    EverythingDenotes(afi, q);
    var r :| r in Everything(afi) && r.Denotes(q);
  }

  /** What finish promises of each conjunct. */
  ghost predicate Finished(afi: Afi, k: Conjunct) {
    && k.prefixes != {} && k.any == (Everything(afi) <= k.prefixes) && AllValid(k.prefixes) && AllValid(k.notPrefixes)
    && forall y :: y in k.notPrefixes ==> exists x :: x in k.prefixes && Intersect(y, x).Some?
  }

  /** finish: the answer matches exactly what the conjuncts built accept; none of its conjuncts is
      empty, repeats another's text, or keeps a negated range that meets no positive one. */
  method Finish(afi: Afi, cs: seq<NConj>) returns (ks: seq<Conjunct>)
    requires AllConj(cs, afi)
    ensures forall k :: k in ks ==> Finished(afi, k)
    ensures forall i, j :: 0 <= i < j < |ks| ==> ks[i].Text() != ks[j].Text()
    ensures |ks| <= |cs|
    ensures |cs| == 1 && cs[0].pos.Some? && cs[0].pos.value != {} && cs[0].neg == {} ==> ks == [Plain(afi, cs[0])]
    ensures forall tau: Tests, q: Prefix :: q.Valid() && afi.Allows(q.family) ==>
            (AcceptsAny(cs, tau, q) <==> MatchesAny(ks, tau, q))
  {
    ks := [];
    for i := 0 to |cs|
      invariant forall k :: k in ks ==> Finished(afi, k)
      invariant forall a, b :: 0 <= a < b < |ks| ==> ks[a].Text() != ks[b].Text()
      invariant |ks| <= i
      invariant i == 1 && cs[0].pos.Some? && cs[0].pos.value != {} && cs[0].neg == {} ==> ks == [Plain(afi, cs[0])]
      invariant forall tau: Tests, q: Prefix :: q.Valid() && afi.Allows(q.family) ==>
                (AcceptsAny(cs[..i], tau, q) <==> MatchesAny(ks, tau, q))
    {
      var k := FinishOne(afi, cs[i]);
      ghost var before := ks;
      if k.Some? {
        var dup := Repeats(ks, k.value);
        if !dup { ks := ks + [k.value]; }
      }
      forall tau: Tests, q: Prefix | q.Valid() && afi.Allows(q.family)
        ensures AcceptsAny(cs[..i + 1], tau, q) <==> MatchesAny(ks, tau, q)
      {
        assert cs[..i + 1] == cs[..i] + [cs[i]];
        AcceptsAnyAppend(cs[..i], [cs[i]], tau, q);
        AcceptsOne(cs[i], tau, q);
        if k.Some? { MatchesAnyWith(afi, before, ks, k.value, tau, q); }
      }
    }
    assert cs[..|cs|] == cs;
  }

  method Repeats(ks: seq<Conjunct>, k: Conjunct) returns (dup: bool)
    ensures dup <==> exists i :: 0 <= i < |ks| && ks[i].Text() == k.Text()
  {
    for i := 0 to |ks|
      invariant forall j :: 0 <= j < i ==> ks[j].Text() != k.Text()
    {
      assert ks[i].Text() == k.Text() ==> SameText(ks[i], k);
      if SameText(ks[i], k) { return true; }
    }
    return false;
  }

  lemma MatchesAnyWith(afi: Afi, before: seq<Conjunct>, after: seq<Conjunct>, k: Conjunct, tau: Tests, q: Prefix)
    requires q.Valid() && afi.Allows(q.family) && Finished(afi, k) && forall x :: x in before ==> Finished(afi, x)
    requires after == before + [k] || (after == before && exists i :: 0 <= i < |before| && before[i].Text() == k.Text())
    ensures MatchesAny(after, tau, q) <==> MatchesAny(before, tau, q) || k.Matches(tau, q)
  {
    if after == before + [k] {
      assert k in after;
      if x :| x in before && x.Matches(tau, q) { assert x in after; }
    } else {
      var i :| 0 <= i < |before| && before[i].Text() == k.Text();
      assert before[i] in before;
      SameTextMatches(afi, before[i], k, tau, q);
    }
  }
}
