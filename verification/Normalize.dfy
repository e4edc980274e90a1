/** NormalizeFilter: a filter compiled to disjunctive normal form (resolve/normalize.go:133-489,
    546-598), with no exclusions and no limit hit. */
module Normalize {
  import opened Prefixes
  import opened RangeIndex
  import opened Filters
  import opened FilterFixpoint
  import opened FilterRuns
  import opened FilterBlocks
  import opened FilterEval
  import opened Unfolding
  import opened Conjuncts
  import opened NormalizeErrors
  import opened NormalizeBlocks

  /** A prefix of the family evaluation is limited to. */
  predicate InScope(env: Env, q: Prefix) { q.Valid() && env.afi.Allows(q.family) }

  /** cs accepts exactly what f, unfolded fuel deep, matches; or, under neg, what it does not. */
  ghost predicate NormOf(env: Env, f: Filter, neg: bool, cs: seq<NConj>, fuel: nat)
    requires env.Valid()
  {
    AllConj(cs, env.afi) &&
    forall tau: Tests, q: Prefix :: InScope(env, q) ==>
      Unfold(env, f, fuel, tau, q) == Some(AcceptsAny(cs, tau, q) != neg)
  }

  ghost predicate IsNormOf(env: Env, f: Filter, neg: bool, cs: seq<NConj>)
    requires env.Valid()
  {
    exists fuel: nat :: NormOf(env, f, neg, cs, fuel)
  }

  lemma NormOfDeeper(env: Env, f: Filter, neg: bool, cs: seq<NConj>, fuel: nat, more: nat)
    requires env.Valid() && NormOf(env, f, neg, cs, fuel) && fuel <= more
    ensures NormOf(env, f, neg, cs, more)
  {
    forall tau: Tests, q: Prefix | InScope(env, q)
      ensures Unfold(env, f, more, tau, q) == Some(AcceptsAny(cs, tau, q) != neg)
    {
      UnfoldDeeper(env, f, fuel, more, tau, q);
    }
  }

  // ---- groups ----

  ghost function GroupUnfold(env: Env, ts: seq<Filter>, and: bool, fuel: nat, tau: Tests, q: Prefix): Option<bool>
    requires env.Valid()
  {
    if and then UnfoldEach(env, ts, fuel, tau, q) else UnfoldSome(env, ts, fuel, tau, q)
  }

  ghost predicate EnumHolds(env: Env, enum_: seq<Filter>, and: bool, tau: Tests, q: Prefix)
    requires env.Valid()
  {
    if and then EachMeaning(env, enum_, LfpOf(env, tau), tau, q) else SomeMeaning(env, enum_, LfpOf(env, tau), tau, q)
  }

  ghost predicate PartsHold(parts: seq<seq<NConj>>, and: bool, neg: bool, tau: Tests, q: Prefix) {
    if and then forall p :: p in parts ==> AcceptsAny(p, tau, q) != neg
    else exists p :: p in parts && AcceptsAny(p, tau, q) != neg
  }

  /** The terms ts split into enumerable ones and the normal forms of the rest. */
  ghost predicate SplitOf(env: Env, ts: seq<Filter>, and: bool, neg: bool, enum_: seq<Filter>, parts: seq<seq<NConj>>,
                          fuel: nat)
    requires env.Valid()
  {
    (forall p :: p in parts ==> AllConj(p, env.afi)) &&
      (forall t :: t in enum_ ==> WellFormed(t) && !Symbolic(env, t)) &&
    forall tau: Tests, q: Prefix :: InScope(env, q) ==>
      GroupUnfold(env, ts, and, fuel, tau, q) ==
      Some(if and then EnumHolds(env, enum_, and, tau, q) && PartsHold(parts, and, neg, tau, q)
           else EnumHolds(env, enum_, and, tau, q) || PartsHold(parts, and, neg, tau, q))
  }

  lemma {:induction false} GroupUnfoldAppend(env: Env, ts: seq<Filter>, t: Filter, and: bool, fuel: nat, tau: Tests,
                                             q: Prefix)
    requires env.Valid()
    ensures GroupUnfold(env, ts + [t], and, fuel, tau, q) ==
            if and then And2(GroupUnfold(env, ts, and, fuel, tau, q), Unfold(env, t, fuel, tau, q))
            else Or2(GroupUnfold(env, ts, and, fuel, tau, q), Unfold(env, t, fuel, tau, q))
    decreases |ts|
  {
    if ts == [] {
      assert (ts + [t])[1..] == [];
    } else {
      GroupUnfoldAppend(env, ts[1..], t, and, fuel, tau, q);
      assert (ts + [t])[1..] == ts[1..] + [t];
    }
  }

  lemma {:induction false} EnumAppend(env: Env, ts: seq<Filter>, t: Filter, and: bool, tau: Tests, q: Prefix)
    requires env.Valid()
    ensures var m := Meaning(env, t, LfpOf(env, tau), tau, q);
            EnumHolds(env, ts + [t], and, tau, q) <==>
              if and then EnumHolds(env, ts, and, tau, q) && m else EnumHolds(env, ts, and, tau, q) || m
    decreases |ts|
  {
    if ts == [] {
      assert (ts + [t])[1..] == [];
    } else {
      EnumAppend(env, ts[1..], t, and, tau, q);
      assert (ts + [t])[1..] == ts[1..] + [t];
    }
  }

  lemma PartsAppend(parts: seq<seq<NConj>>, p: seq<NConj>, and: bool, neg: bool, tau: Tests, q: Prefix)
    ensures var m := AcceptsAny(p, tau, q) != neg;
            PartsHold(parts + [p], and, neg, tau, q) <==>
              if and then PartsHold(parts, and, neg, tau, q) && m else PartsHold(parts, and, neg, tau, q) || m
    ensures PartsHold([p] + parts, and, neg, tau, q) <==> PartsHold(parts + [p], and, neg, tau, q)
  {
    assert forall x :: x in parts + [p] <==> x in parts || x == p;
    assert forall x :: x in [p] + parts <==> x in parts || x == p;
  }

  lemma SplitEnum(env: Env, ts: seq<Filter>, t: Filter, and: bool, neg: bool, enum_: seq<Filter>,
                  parts: seq<seq<NConj>>, fuel: nat)
    requires env.Valid() && SplitOf(env, ts, and, neg, enum_, parts, fuel) && WellFormed(t) && !Symbolic(env, t)
    ensures SplitOf(env, ts + [t], and, neg, enum_ + [t], parts, fuel)
  {
    forall tau: Tests, q: Prefix | InScope(env, q)
      ensures GroupUnfold(env, ts + [t], and, fuel, tau, q) ==
              Some(if and then EnumHolds(env, enum_ + [t], and, tau, q) && PartsHold(parts, and, neg, tau, q)
                   else EnumHolds(env, enum_ + [t], and, tau, q) || PartsHold(parts, and, neg, tau, q))
    {
      GroupUnfoldAppend(env, ts, t, and, fuel, tau, q);
      EnumAppend(env, enum_, t, and, tau, q);
    }
  }

  lemma SplitPart(env: Env, ts: seq<Filter>, t: Filter, and: bool, neg: bool, enum_: seq<Filter>,
                  parts: seq<seq<NConj>>, fuel: nat, cs: seq<NConj>, more: nat)
    requires env.Valid() && SplitOf(env, ts, and, neg, enum_, parts, fuel) && fuel <= more
    requires NormOf(env, t, neg, cs, more)
    ensures SplitOf(env, ts + [t], and, neg, enum_, parts + [cs], more)
  {
    forall tau: Tests, q: Prefix | InScope(env, q)
      ensures GroupUnfold(env, ts + [t], and, more, tau, q) ==
              Some(if and then EnumHolds(env, enum_, and, tau, q) && PartsHold(parts + [cs], and, neg, tau, q)
                   else EnumHolds(env, enum_, and, tau, q) || PartsHold(parts + [cs], and, neg, tau, q))
    {
      assert GroupUnfold(env, ts, and, fuel, tau, q).Some?;
      if and { UnfoldEachDeeper(env, ts, fuel, more, tau, q); } else { UnfoldSomeDeeper(env, ts, fuel, more, tau, q); }
      GroupUnfoldAppend(env, ts, t, and, more, tau, q);
      PartsAppend(parts, cs, and, neg, tau, q);
    }
  }

  lemma {:induction false} NoTermNoGroup(env: Env, ts: seq<Filter>, path: seq<string>)
    requires forall t :: t in ts ==> !SymbolAt(env, t, path)
    ensures !SymbolAt(env, FOr(ts), path)
    decreases |ts|
  {
    if ts == [] {
      assert !HasSymbol(FOr(ts));
      assert path == [] || path[0] !in Refs(FOr(ts));
    } else {
      assert ts[0] in ts && !SymbolAt(env, ts[0], path);
      NoTermNoGroup(env, ts[1..], path);
      if path == [] {
        assert HasSymbol(FOr(ts)) <==> HasSymbol(ts[0]) || HasSymbol(FOr(ts[1..]));
      } else {
        assert Refs(FOr(ts)) == Refs(ts[0]) + Refs(FOr(ts[1..]));
      }
    }
  }

  lemma FoldedNotSymbolic(env: Env, enum_: seq<Filter>, and: bool)
    requires forall t :: t in enum_ ==> !Symbolic(env, t)
    ensures !Symbolic(env, Folded(enum_, and))
  {
    forall path ensures !SymbolAt(env, Folded(enum_, and), path) {
      NoTermNoGroup(env, enum_, path);
    }
  }

  /** A split that accounts for the errors too. */
  ghost predicate Splits(env: Env, ts: seq<Filter>, and: bool, neg: bool, enum_: seq<Filter>, parts: seq<seq<NConj>>,
                         fuel: nat)
    requires env.Valid()
  {
    SplitOf(env, ts, and, neg, enum_, parts, fuel) && EachCanAt(env, ts, fuel) && enum_ == Enumerable(env, ts)
  }

  lemma SplitsEnum(env: Env, ts: seq<Filter>, i: nat, and: bool, neg: bool, enum_: seq<Filter>, parts: seq<seq<NConj>>,
                   fuel: nat)
    requires env.Valid() && i < |ts| && Splits(env, ts[..i], and, neg, enum_, parts, fuel) && WellFormed(ts[i])
    requires !Symbolic(env, ts[i])
    ensures Splits(env, ts[..i + 1], and, neg, enum_ + [ts[i]], parts, fuel)
  {
    assert ts[..i + 1] == ts[..i] + [ts[i]];
    EnumerableAppend(env, ts[..i], ts[i]);
    SplitEnum(env, ts[..i], ts[i], and, neg, enum_, parts, fuel);
    EachCanAppend(env, ts[..i], ts[i], fuel);
  }

  lemma SplitsPart(env: Env, ts: seq<Filter>, i: nat, and: bool, neg: bool, enum_: seq<Filter>, parts: seq<seq<NConj>>,
                   fuel: nat, cs: seq<NConj>)
    returns (more: nat)
    requires env.Valid() && i < |ts| && Splits(env, ts[..i], and, neg, enum_, parts, fuel) && Symbolic(env, ts[i])
    requires IsNormOf(env, ts[i], neg, cs) && Normalizable(env, ts[i])
    ensures Splits(env, ts[..i + 1], and, neg, enum_, parts + [cs], more)
  {
    var t := ts[i];
    assert ts[..i + 1] == ts[..i] + [t];
    EnumerableAppend(env, ts[..i], t);
    var deep: nat :| NormOf(env, t, neg, cs, deep);
    var can: nat :| CanAt(env, t, can);
    more := Max(fuel, Max(deep, can));
    NormOfDeeper(env, t, neg, cs, deep, more);
    SplitPart(env, ts[..i], t, and, neg, enum_, parts, fuel, cs, more);
    CanDeeper(env, t, can, more);
    EachCanDeeper(env, ts[..i], fuel, more);
    EachCanAppend(env, ts[..i], t, more);
  }

  /** How a group's parts combine: AND under no negation and OR under one distribute, the others join. */
  ghost predicate Combined(parts: seq<seq<NConj>>, and: bool, neg: bool, cs: seq<NConj>) {
    forall tau: Tests, q: Prefix :: AcceptsAny(cs, tau, q) != neg <==> PartsHold(parts, and, neg, tau, q)
  }

  method Combine(afi: Afi, parts: seq<seq<NConj>>, and: bool, neg: bool) returns (cs: seq<NConj>)
    requires forall p :: p in parts ==> AllConj(p, afi)
    ensures AllConj(cs, afi) && Combined(parts, and, neg, cs)
  {
    if and != neg {
      cs := Product(afi, parts);
      return;
    }
    cs := [];
    for i := 0 to |parts|
      invariant AllConj(cs, afi)
      invariant forall tau: Tests, q: Prefix :: AcceptsAny(cs, tau, q) <==>
                exists p :: p in parts[..i] && AcceptsAny(p, tau, q)
    {
      ghost var before := cs;
      assert parts[i] in parts;
      cs := cs + parts[i];
      forall tau: Tests, q: Prefix
        ensures AcceptsAny(cs, tau, q) <==> exists p :: p in parts[..i + 1] && AcceptsAny(p, tau, q)
      {
        assert parts[..i + 1] == parts[..i] + [parts[i]];
        AcceptsAnyAppend(before, parts[i], tau, q);
        assert parts[i] in parts[..i + 1];
      }
    }
    assert parts[..|parts|] == parts;
  }

  // ---- the normalizer ----

  type FormMemo = map<(string, bool), seq<NConj>>

  /** Each inlined filter-set's normal form, by polarity. */
  ghost predicate MemoHolds(env: Env, memo: FormMemo)
    requires env.Valid()
  {
    forall k :: k in memo ==>
      k.0 in env.sets && Normalizable(env, env.sets[k.0]) && IsNormOf(env, env.sets[k.0], k.1, memo[k])
  }

  /** The conjuncts of a literal that denotes v: none when v is empty. */
  function OneLiteral(v: Ranges): seq<NConj> { if v == {} then [] else [NConj(Some(v), {}, [], [])] }

  /** The same, finished. */
  function OneConjunct(afi: Afi, v: Ranges): seq<Conjunct> {
    if v == {} then [] else [Conjunct(v, {}, [], [], Everything(afi) <= v)]
  }

  class Normalizer {
    const env: Env
    const ev: Evaluator
    var inline_: set<string>
    var memo: FormMemo

    constructor (env: Env)
      requires env.Valid()
      ensures Valid() && this.env == env && inline_ == {} && fresh(ev)
    {
      this.env := env;
      ev := new Evaluator(env);
      inline_, memo := {}, map[];
    }

    ghost predicate Valid()
      reads this, ev
    {
      env.Valid() && ev.env == env && ev.Valid() && ev.active == {} && inline_ <= env.sets.Keys && MemoHolds(env, memo)
    }

    /** An enumerable filter becomes a single literal, complemented under neg. */
    method Literal(f: Filter, neg: bool) returns (r: Option<seq<NConj>>)
      requires Valid() && WellFormed(f) && !Symbolic(env, f)
      modifies ev
      ensures Valid()
      ensures r.Some? <==> Evaluates(env, f)
      ensures r.Some? ==> NormOf(env, f, neg, r.value, 0)
      ensures r.Some? && !neg ==> exists v :: Answers(env, f, Some(v)) && r.value == OneLiteral(v)
    {
      ev.approx := map[];
      var v := ev.Run(f);
      if v.None? { return None; }
      var cs: seq<NConj> := if neg then [NConj(None, v.value, [], [])] else OneLiteral(v.value);
      forall tau: Tests, q: Prefix | InScope(env, q)
        ensures AcceptsAny(cs, tau, q) != neg <==> RangesDenote(v.value, q)
      {
        if cs != [] { AcceptsOne(cs[0], tau, q); }
      }
      return Some(cs);
    }

    method Norm(f: Filter, neg: bool) returns (r: Option<seq<NConj>>)
      requires Valid() && WellFormed(f) && Leads(env, inline_, f)
      modifies this`memo, this`inline_, ev
      ensures Valid() && inline_ == old(inline_)
      ensures r.Some? <==> Normalizable(env, f)
      ensures r.Some? ==> IsNormOf(env, f, neg, r.value)
      ensures r.Some? && !Symbolic(env, f) && !neg ==> exists v :: Answers(env, f, Some(v)) && r.value == OneLiteral(v)
      decreases env.sets.Keys - inline_, Size(f), 2
    {
      var sym := IsSymbolic(env, f);
      if !sym {
        r := Literal(f, neg);
        assert Evaluates(env, f) <==> CanAt(env, f, 0);
        return;
      }
      match f
      case FNot(g) =>
        assert forall k: nat :: CanAt(env, f, k) <==> CanAt(env, g, k);
        r := Norm(g, !neg);
        if r.Some? { NotNorm(env, f, neg, r.value); }
      case FOr(_) => r := Group(f, neg);
      case FAnd(_) => r := Group(f, neg);
      case FTest(t, usable) =>
        if !usable { return None; }
        var c := if t.PathTest? then NConj(None, {}, [Signed(neg, t)], []) else NConj(None, {}, [], [Signed(neg, t)]);
        TestNorm(env, f, neg, c);
        assert CanAt(env, f, 0);
        r := Some([c]);
      case FFilterSet(n, op) => r := FilterSet(f, neg);
      case _ => r := None;
    }

    /** An AND or an OR of terms: the enumerable ones fold into one literal, so only symbolic ones
        multiply conjuncts. */
    method Group(f: Filter, neg: bool) returns (r: Option<seq<NConj>>)
      requires Valid() && WellFormed(f) && (f.FOr? || f.FAnd?) && Leads(env, inline_, f)
      requires Symbolic(env, f) || f.terms == []
      modifies this`memo, this`inline_, ev
      ensures Valid() && inline_ == old(inline_)
      ensures r.Some? <==> Normalizable(env, f)
      ensures r.Some? ==> IsNormOf(env, f, neg, r.value)
      decreases env.sets.Keys - inline_, Size(f), 1
    {
      if f.terms == [] {
        NoTermNoSymbol(env, FOr([]));
        r := Literal(FOr([]), neg);
        EmptyGroupNorm(env, f, neg, r);
        return;
      }
      var enum_, parts, fuel := Split(f, neg);
      r := None;
      if parts.Some? {
        r := Join(f, neg, enum_, parts.value, fuel);
      }
    }

    /** The enumerable terms of a group, and the normal forms of the others. */
    method Split(f: Filter, neg: bool) returns (enum_: seq<Filter>, parts: Option<seq<seq<NConj>>>, ghost fuel: nat)
      requires Valid() && WellFormed(f) && (f.FOr? || f.FAnd?) && Leads(env, inline_, f) && Symbolic(env, f)
      modifies this`memo, this`inline_, ev
      ensures Valid() && inline_ == old(inline_)
      ensures parts.None? ==> !Normalizable(env, f)
      ensures parts.Some? ==> Splits(env, f.terms, f.FAnd?, neg, enum_, parts.value, fuel)
      decreases env.sets.Keys - inline_, Size(f), 0
    {
      var ts, ps: seq<seq<NConj>> := f.terms, [];
      enum_, fuel := [], 0;
      for i := 0 to |ts|
        invariant Valid() && inline_ == old(inline_)
        invariant Splits(env, ts[..i], f.FAnd?, neg, enum_, ps, fuel)
      {
        SizeAt(ts, i);
        var sym := IsSymbolic(env, ts[i]);
        if !sym {
          SplitsEnum(env, ts, i, f.FAnd?, neg, enum_, ps, fuel);
          enum_ := enum_ + [ts[i]];
        } else {
          LeadsTerm(env, inline_, f, i);
          var cs := Norm(ts[i], neg);
          if cs.None? {
            TermCannot(env, f, i);
            return enum_, None, fuel;
          }
          fuel := SplitsPart(env, ts, i, f.FAnd?, neg, enum_, ps, fuel, cs.value);
          ps := ps + [cs.value];
        }
      }
      assert ts[..|ts|] == ts;
      return enum_, Some(ps), fuel;
    }

    /** A group's normal form from its split. */
    method Join(f: Filter, neg: bool, enum_: seq<Filter>, rest: seq<seq<NConj>>, ghost fuel: nat)
      returns (r: Option<seq<NConj>>)
      requires Valid() && (f.FOr? || f.FAnd?) && Symbolic(env, f)
      requires Splits(env, f.terms, f.FAnd?, neg, enum_, rest, fuel)
      modifies ev
      ensures Valid()
      ensures r.Some? <==> Normalizable(env, f)
      ensures r.Some? ==> IsNormOf(env, f, neg, r.value)
    {
      var and, parts := f.FAnd?, rest;
      if enum_ != [] {
        FoldedNotSymbolic(env, enum_, and);
        var cs := Literal(Folded(enum_, and), neg);
        if cs.None? { return None; }
        parts := [cs.value] + parts;
        LiteralJoins(env, f.terms, and, neg, enum_, rest, fuel, cs.value);
      }
      assert CanAt(env, f, fuel);
      var out := Combine(env.afi, parts, and, neg);
      assert NormOf(env, f, neg, out, fuel);
      r := Some(out);
    }

    /** A symbolic filter-set, inlined once per polarity; None on a cycle or under a range operator. */
    method FilterSet(f: Filter, neg: bool) returns (r: Option<seq<NConj>>)
      requires Valid() && f.FFilterSet? && Symbolic(env, f) && Leads(env, inline_, f)
      modifies this`memo, this`inline_, ev
      ensures Valid() && inline_ == old(inline_)
      ensures r.Some? <==> Normalizable(env, f)
      ensures r.Some? ==> IsNormOf(env, f, neg, r.value)
      decreases env.sets.Keys - inline_, Size(f), 0
    {
      var n := f.name;
      SetSymbolic(env, f);
      if !f.op.IsZero() { return None; }
      if (n, neg) in memo {
        InlinedNorm(env, f, neg, memo[(n, neg)]);
        return Some(memo[(n, neg)]);
      }
      if n in inline_ {
        forall k: nat ensures !CanAt(env, f, k) { CycleCannot(env, inline_, f, k); }
        return None;
      }
      ghost var outer := inline_;
      LeadsInto(env, inline_, f);
      inline_ := inline_ + {n};
      r := Norm(env.sets[n], neg);
      inline_ := inline_ - {n};
      assert inline_ == outer;
      if r.Some? {
        memo := memo[(n, neg) := r.value];
        InlinedNorm(env, f, neg, r.value);
      } else {
        assert forall k: nat :: CanAt(env, f, k) ==> CanAt(env, env.sets[n], k - 1);
      }
    }
  }

  lemma EmptyGroupNorm(env: Env, f: Filter, neg: bool, r: Option<seq<NConj>>)
    requires env.Valid() && (f.FOr? || f.FAnd?) && f.terms == [] && !Symbolic(env, FOr([]))
    requires r.Some? <==> Evaluates(env, FOr([]))
    requires r.Some? ==> NormOf(env, FOr([]), neg, r.value, 0)
    ensures r.Some? <==> Normalizable(env, f)
    ensures r.Some? ==> IsNormOf(env, f, neg, r.value)
  {
    NoTermNoSymbol(env, f);
    NoTermNoBlock(env, f);
    NoTermNoBlock(env, FOr([]));
    assert CanAt(env, f, 0) <==> Evaluates(env, f);
    if r.Some? { assert NormOf(env, f, neg, r.value, 0); }
  }

  lemma NoTermNoSymbol(env: Env, f: Filter)
    requires (f.FOr? || f.FAnd?) && f.terms == []
    ensures !Symbolic(env, f)
  {
    if Symbolic(env, f) { NonEmptySymbolic(env, f); }
  }

  lemma LiteralJoins(env: Env, ts: seq<Filter>, and: bool, neg: bool, enum_: seq<Filter>, parts: seq<seq<NConj>>,
                     fuel: nat, lit: seq<NConj>)
    requires env.Valid() && SplitOf(env, ts, and, neg, enum_, parts, fuel) && enum_ != []
    requires !Symbolic(env, Folded(enum_, and)) && NormOf(env, Folded(enum_, and), neg, lit, 0)
    ensures SplitOf(env, ts, and, neg, [], [lit] + parts, fuel)
  {
    forall tau: Tests, q: Prefix | InScope(env, q)
      ensures GroupUnfold(env, ts, and, fuel, tau, q) ==
              Some(if and then EnumHolds(env, [], and, tau, q) && PartsHold([lit] + parts, and, neg, tau, q)
                   else EnumHolds(env, [], and, tau, q) || PartsHold([lit] + parts, and, neg, tau, q))
    {
      PartsAppend(parts, lit, and, neg, tau, q);
      assert Unfold(env, Folded(enum_, and), 0, tau, q) == Some(EnumHolds(env, enum_, and, tau, q));
    }
  }

  lemma NotNorm(env: Env, f: Filter, neg: bool, cs: seq<NConj>)
    requires env.Valid() && f.FNot? && Symbolic(env, f) && IsNormOf(env, f.inner, !neg, cs)
    ensures IsNormOf(env, f, neg, cs)
  {
    var fuel: nat :| NormOf(env, f.inner, !neg, cs, fuel);
    assert NormOf(env, f, neg, cs, fuel);
  }

  lemma TestNorm(env: Env, f: Filter, neg: bool, c: NConj)
    requires env.Valid() && f.FTest? && Symbolic(env, f) && c.pos.None? && c.neg == {}
    requires c.paths + c.comms == [Signed(neg, f.test)]
    ensures IsNormOf(env, f, neg, [c])
  {
    forall tau: Tests, q: Prefix ensures AcceptsAny([c], tau, q) <==> tau(f.test) != neg {
      AcceptsOne(c, tau, q);
      assert Signed(neg, f.test) in c.paths + c.comms;
    }
    assert NormOf(env, f, neg, [c], 0);
  }

  lemma InlinedNorm(env: Env, f: Filter, neg: bool, cs: seq<NConj>)
    requires env.Valid() && f.FFilterSet? && Symbolic(env, f) && f.op.IsZero() && f.name in env.sets
    requires IsNormOf(env, env.sets[f.name], neg, cs) && Normalizable(env, env.sets[f.name])
    ensures IsNormOf(env, f, neg, cs) && Normalizable(env, f)
  {
    var depth: nat :| CanAt(env, env.sets[f.name], depth);
    assert CanAt(env, f, depth + 1);
    var fuel: nat :| NormOf(env, env.sets[f.name], neg, cs, fuel);
    assert NormOf(env, f, neg, cs, fuel + 1);
  }

  /** ks matches exactly the routes f does. */
  ghost predicate NormalFormOf(env: Env, f: Filter, ks: seq<Conjunct>, fuel: nat)
    requires env.Valid()
  {
    forall tau: Tests, q: Prefix :: InScope(env, q) ==> Unfold(env, f, fuel, tau, q) == Some(MatchesAny(ks, tau, q))
  }

  /** So it matches what f means under any valuation that, on the filter-sets f comes to name, solves the
      equations of the symbolic ones and is least on the others; and there is one. */
  lemma {:induction false} NormalFormMeans(env: Env, f: Filter, ks: seq<Conjunct>, fuel: nat, tau: Tests, q: Prefix)
    requires env.Valid() && NormalFormOf(env, f, ks, fuel) && InScope(env, q)
    ensures exists sigma :: Stratified(env, f, sigma, tau)
    ensures forall sigma :: Stratified(env, f, sigma, tau) ==>
            (MatchesAny(ks, tau, q) <==> Meaning(env, f, sigma, tau, q))
  {
    assert Unfold(env, f, fuel, tau, q) == Some(MatchesAny(ks, tau, q));
    UnfoldedStratified(env, f, fuel, tau, q);
    forall sigma | Stratified(env, f, sigma, tau) ensures MatchesAny(ks, tau, q) <==> Meaning(env, f, sigma, tau, q) {
      UnfoldIsMeaning(env, f, fuel, sigma, tau, q);
    }
  }

  /** NormalizeFilter preserves meaning: for every prefix of the family and every truth of the AS-path
      and community tests, the normal form matches exactly when the filter does. Whatever EvalFilter
      answers is the prefixes of its only conjunct, which has nothing else, or of none when it is empty. */
  method NormalizeFilter(env: Env, f: Filter) returns (r: Option<seq<Conjunct>>)
    requires env.Valid() && WellFormed(f)
    ensures r.Some? <==> !Obstructed(env, f)
    ensures r.Some? ==> exists fuel: nat :: NormalFormOf(env, f, r.value, fuel)
    ensures r.Some? ==> forall k :: k in r.value ==> Finished(env.afi, k)
    ensures r.Some? ==> forall i, j :: 0 <= i < j < |r.value| ==> r.value[i].Text() != r.value[j].Text()
    ensures forall v :: Answers(Strict(env), f, Some(v)) ==> r == Some(OneConjunct(env.afi, v))
  {
    var n := new Normalizer(env);
    var cs := n.Norm(f, false);
    NormalizableIff(env, f);
    forall v | Answers(Strict(env), f, Some(v)) ensures cs == Some(OneLiteral(v)) { AnsweredLiteral(env, f, v, cs); }
    if cs.None? { return None; }
    var ks := Finish(env.afi, cs.value);
    ghost var fuel: nat :| NormOf(env, f, false, cs.value, fuel);
    assert NormalFormOf(env, f, ks, fuel);
    return Some(ks);
  }

  /** What EvalFilter answers is one literal. */
  lemma {:induction false} AnsweredLiteral(env: Env, f: Filter, v: Ranges, cs: Option<seq<NConj>>)
    requires env.Valid() && WellFormed(f) && Answers(Strict(env), f, Some(v)) && (cs.Some? <==> Normalizable(env, f))
    requires cs.Some? && !Symbolic(env, f) ==> exists w :: Answers(env, f, Some(w)) && cs.value == OneLiteral(w)
    ensures cs == Some(OneLiteral(v))
  {
    StrictAnswers(env, f, v);
    AnswersEvaluates(env, f, v);
    EvaluatesPlain(env, f);
    assert CanAt(env, f, 0);
    var w :| Answers(env, f, Some(w)) && cs.value == OneLiteral(w);
    OneAnswer(env, f, Some(v), Some(w));
  }
}
