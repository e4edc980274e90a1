/** What a filter with NOT, AS-path and community terms means, filter-sets unfolded: a filter none of
    whose parts is symbolic means what it means under the least solution; the symbolic rest is read
    structurally, a symbolic filter-set standing for its filter. */
module Unfolding {
  import opened Prefixes
  import opened Filters
  import opened FilterFixpoint
  import opened FilterRuns

  // ---- symbolic filters ----

  /** f itself holds a NOT or a test. */
  predicate HasSymbol(f: Filter) {
    match f
    case FNot(_) => true
    case FTest(_, _) => true
    case FOr(ts) => AnyHasSymbol(ts)
    case FAnd(ts) => AnyHasSymbol(ts)
    case _ => false
  }

  predicate AnyHasSymbol(ts: seq<Filter>) { ts != [] && (HasSymbol(ts[0]) || AnyHasSymbol(ts[1..])) }

  /** f holds a NOT or a test by way of the filter-sets at path. */
  ghost predicate SymbolAt(env: Env, f: Filter, path: seq<string>)
    decreases |path|
  {
    if path == [] then HasSymbol(f)
    else path[0] in Refs(f) && path[0] in env.sets && SymbolAt(env, env.sets[path[0]], path[1..])
  }

  ghost predicate Symbolic(env: Env, f: Filter) { exists path :: SymbolAt(env, f, path) }

  ghost predicate AnySymbolic(env: Env, ts: seq<Filter>) {
    ts != [] && (Symbolic(env, ts[0]) || AnySymbolic(env, ts[1..]))
  }

  lemma SymbolicIntro(env: Env, f: Filter, n: string)
    requires n in Refs(f) && n in env.sets && Symbolic(env, env.sets[n])
    ensures Symbolic(env, f)
  {
    var path :| SymbolAt(env, env.sets[n], path);
    assert ([n] + path)[1..] == path;
    assert SymbolAt(env, f, [n] + path);
  }

  /** Neither f nor any filter-set it names holds a symbol, all of them being in seen. */
  predicate Clean(f: Filter, seen: set<string>) { !HasSymbol(f) && Refs(f) <= seen }

  ghost predicate AllClean(env: Env, ns: set<string>, seen: set<string>) {
    forall n :: n in ns && n in env.sets ==> Clean(env.sets[n], seen)
  }

  lemma {:induction false} CleanHasNoSymbol(env: Env, f: Filter, seen: set<string>, path: seq<string>)
    requires Clean(f, seen) && AllClean(env, seen, seen)
    ensures !SymbolAt(env, f, path)
    decreases |path|
  {
    if path != [] && path[0] in Refs(f) && path[0] in env.sets {
      CleanHasNoSymbol(env, env.sets[path[0]], seen, path[1..]);
    }
  }

  /** The depth-first search of symbolic: seen breaks cycles. */
  method FindSymbol(env: Env, f: Filter, seen: set<string>) returns (found: bool, seen': set<string>)
    ensures found ==> Symbolic(env, f)
    ensures seen <= seen' && (!found ==> Clean(f, seen') && AllClean(env, seen' - seen, seen'))
    decreases env.sets.Keys - seen, Size(f)
  {
    found, seen' := false, seen;
    match f
    case FNot(_) =>
      assert SymbolAt(env, f, []);
      found := true;
    case FTest(_, _) =>
      assert SymbolAt(env, f, []);
      found := true;
    case FOr(ts) =>
      found, seen' := FindSymbolAny(env, ts, seen);
      if found { GroupSymbolic(env, f); }
      if !found { CleanTerms(f, seen'); }
    case FAnd(ts) =>
      found, seen' := FindSymbolAny(env, ts, seen);
      if found { GroupSymbolic(env, f); }
      if !found { CleanTerms(f, seen'); }
    case FFilterSet(n, _) =>
      if n !in seen {
        seen' := seen + {n};
        if n in env.sets {
          found, seen' := FindSymbol(env, env.sets[n], seen');
          if found { SymbolicIntro(env, f, n); }
        }
      }
    case _ =>
  }

  predicate AllCleanTerms(ts: seq<Filter>, seen: set<string>) { forall t :: t in ts ==> Clean(t, seen) }

  method FindSymbolAny(env: Env, ts: seq<Filter>, seen: set<string>) returns (found: bool, seen': set<string>)
    ensures found ==> AnySymbolic(env, ts)
    ensures seen <= seen' && (!found ==> AllCleanTerms(ts, seen') && AllClean(env, seen' - seen, seen'))
    decreases env.sets.Keys - seen, SizeAll(ts)
  {
    if ts == [] { return false, seen; }
    found, seen' := FindSymbol(env, ts[0], seen);
    if found { return; }
    var first := seen';
    SizeTail(ts);
    found, seen' := FindSymbolAny(env, ts[1..], first);
    assert forall t :: t in ts ==> t == ts[0] || t in ts[1..];
    assert seen' - seen == (first - seen) + (seen' - first);
  }

  lemma SizeTail(ts: seq<Filter>)
    requires ts != []
    ensures Size(ts[0]) < SizeAll(ts) && SizeAll(ts[1..]) < SizeAll(ts)
  {
  }

  lemma {:induction false} RefsAt(ts: seq<Filter>, i: nat)
    requires i < |ts|
    ensures Refs(ts[i]) <= RefsAll(ts) && (HasSymbol(ts[i]) ==> AnyHasSymbol(ts))
  {
    if i > 0 { RefsAt(ts[1..], i - 1); }
  }

  lemma {:induction false} AnySymbolicAt(env: Env, ts: seq<Filter>) returns (i: nat)
    requires AnySymbolic(env, ts)
    ensures i < |ts| && Symbolic(env, ts[i])
  {
    if Symbolic(env, ts[0]) {
      i := 0;
    } else {
      i := AnySymbolicAt(env, ts[1..]);
      i := i + 1;
    }
  }

  /** A group is symbolic when a term of it is. */
  lemma GroupSymbolic(env: Env, f: Filter)
    requires (f.FOr? || f.FAnd?) && AnySymbolic(env, f.terms)
    ensures Symbolic(env, f)
  {
    var i := AnySymbolicAt(env, f.terms);
    var path :| SymbolAt(env, f.terms[i], path);
    RefsAt(f.terms, i);
    assert SymbolAt(env, f, path);
  }

  lemma {:induction false} CleanTermsAll(ts: seq<Filter>, seen: set<string>)
    requires AllCleanTerms(ts, seen)
    ensures !AnyHasSymbol(ts) && RefsAll(ts) <= seen
  {
    if ts != [] {
      assert ts[0] in ts;
      CleanTermsAll(ts[1..], seen);
    }
  }

  lemma CleanTerms(f: Filter, seen: set<string>)
    requires (f.FOr? || f.FAnd?) && AllCleanTerms(f.terms, seen)
    ensures Clean(f, seen)
  {
    CleanTermsAll(f.terms, seen);
  }

  /** symbolic decides whether a filter is. */
  method IsSymbolic(env: Env, f: Filter) returns (b: bool)
    ensures b <==> Symbolic(env, f)
  {
    var seen;
    b, seen := FindSymbol(env, f, {});
    if !b {
      assert seen - {} == seen;
      forall path ensures !SymbolAt(env, f, path) { CleanHasNoSymbol(env, f, seen, path); }
    }
  }

  // ---- unfolding ----

  function Not(b: Option<bool>): Option<bool> { if b.None? then None else Some(!b.value) }

  function Or2(a: Option<bool>, b: Option<bool>): Option<bool> {
    if a.None? || b.None? then None else Some(a.value || b.value)
  }

  function And2(a: Option<bool>, b: Option<bool>): Option<bool> {
    if a.None? || b.None? then None else Some(a.value && b.value)
  }

  /** Whether q, with tests tau, matches f, unfolding symbolic filter-sets at most fuel deep. None: not
      decided at that depth, or a symbolic filter-set under a range operator. */
  ghost function Unfold(env: Env, f: Filter, fuel: nat, tau: Tests, q: Prefix): Option<bool>
    requires env.Valid()
    decreases fuel, f, 1
  {
    if !Symbolic(env, f) then Some(Meaning(env, f, LfpOf(env, tau), tau, q))
    else match f
      case FNot(g) => Not(Unfold(env, g, fuel, tau, q))
      case FOr(ts) => UnfoldSome(env, ts, fuel, tau, q)
      case FAnd(ts) => UnfoldEach(env, ts, fuel, tau, q)
      case FTest(t, _) => Some(tau(t))
      case FFilterSet(n, op) =>
        if fuel == 0 || n !in env.sets || !op.IsZero() then None else Unfold(env, env.sets[n], fuel - 1, tau, q)
      case _ => None
  }

  ghost function UnfoldSome(env: Env, ts: seq<Filter>, fuel: nat, tau: Tests, q: Prefix): Option<bool>
    requires env.Valid()
    decreases fuel, ts, 0
  {
    if ts == [] then Some(false) else Or2(Unfold(env, ts[0], fuel, tau, q), UnfoldSome(env, ts[1..], fuel, tau, q))
  }

  ghost function UnfoldEach(env: Env, ts: seq<Filter>, fuel: nat, tau: Tests, q: Prefix): Option<bool>
    requires env.Valid()
    decreases fuel, ts, 0
  {
    if ts == [] then Some(true) else And2(Unfold(env, ts[0], fuel, tau, q), UnfoldEach(env, ts[1..], fuel, tau, q))
  }

  /** Unfolding deeper changes no answer. */
  lemma {:induction false} UnfoldDeeper(env: Env, f: Filter, fuel: nat, more: nat, tau: Tests, q: Prefix)
    requires env.Valid() && fuel <= more && Unfold(env, f, fuel, tau, q).Some?
    ensures Unfold(env, f, more, tau, q) == Unfold(env, f, fuel, tau, q)
    decreases fuel, f, 1
  {
    if Symbolic(env, f) {
      match f
      case FNot(g) => UnfoldDeeper(env, g, fuel, more, tau, q);
      case FOr(ts) => UnfoldSomeDeeper(env, ts, fuel, more, tau, q);
      case FAnd(ts) => UnfoldEachDeeper(env, ts, fuel, more, tau, q);
      case FFilterSet(n, _) => UnfoldDeeper(env, env.sets[n], fuel - 1, more - 1, tau, q);
      case _ =>
    }
  }

  lemma {:induction false} UnfoldSomeDeeper(env: Env, ts: seq<Filter>, fuel: nat, more: nat, tau: Tests, q: Prefix)
    requires env.Valid() && fuel <= more && UnfoldSome(env, ts, fuel, tau, q).Some?
    ensures UnfoldSome(env, ts, more, tau, q) == UnfoldSome(env, ts, fuel, tau, q)
    decreases fuel, ts, 0
  {
    if ts != [] {
      UnfoldDeeper(env, ts[0], fuel, more, tau, q);
      UnfoldSomeDeeper(env, ts[1..], fuel, more, tau, q);
    }
  }

  lemma {:induction false} UnfoldEachDeeper(env: Env, ts: seq<Filter>, fuel: nat, more: nat, tau: Tests, q: Prefix)
    requires env.Valid() && fuel <= more && UnfoldEach(env, ts, fuel, tau, q).Some?
    ensures UnfoldEach(env, ts, more, tau, q) == UnfoldEach(env, ts, fuel, tau, q)
    decreases fuel, ts, 0
  {
    if ts != [] {
      UnfoldDeeper(env, ts[0], fuel, more, tau, q);
      UnfoldEachDeeper(env, ts[1..], fuel, more, tau, q);
    }
  }

  // ---- what unfolding means ----

  /** f names n by way of the filter-sets at path. */
  ghost predicate NamesAt(env: Env, f: Filter, path: seq<string>, n: string)
    decreases |path|
  {
    if path == [] then n in Refs(f)
    else path[0] in Refs(f) && path[0] in env.sets && NamesAt(env, env.sets[path[0]], path[1..], n)
  }

  ghost predicate Names(env: Env, f: Filter, n: string) { exists path :: NamesAt(env, f, path, n) }

  lemma {:induction false} NamesTerm(env: Env, f: Filter, g: Filter, n: string)
    requires Refs(g) <= Refs(f) && Names(env, g, n)
    ensures Names(env, f, n)
  {
    var path :| NamesAt(env, g, path, n);
    assert NamesAt(env, f, path, n);
  }

  lemma {:induction false} NamesThrough(env: Env, f: Filter, m: string, n: string)
    requires m in Refs(f) && m in env.sets && Names(env, env.sets[m], n)
    ensures Names(env, f, n)
  {
    var path :| NamesAt(env, env.sets[m], path, n);
    assert ([m] + path)[1..] == path;
    assert NamesAt(env, f, [m] + path, n);
  }

  /** On the filter-sets f comes to name, sigma satisfies the equations of the symbolic ones and is least on the
      rest. */
  ghost predicate Stratified(env: Env, f: Filter, sigma: Valuation, tau: Tests)
    requires env.Valid()
  {
    forall n, q: Prefix :: n in env.sets && Names(env, f, n) && q.Valid() ==>
      (sigma(n, q) <==>
        if Symbolic(env, env.sets[n]) then Meaning(env, env.sets[n], sigma, tau, q) else Lfp(env, tau, n, q))
  }

  lemma {:induction false} StratifiedTerm(env: Env, f: Filter, g: Filter, sigma: Valuation, tau: Tests)
    requires env.Valid() && Refs(g) <= Refs(f) && Stratified(env, f, sigma, tau)
    ensures Stratified(env, g, sigma, tau)
  {
    forall n | Names(env, g, n) ensures Names(env, f, n) { NamesTerm(env, f, g, n); }
  }

  lemma {:induction false} StratifiedSet(env: Env, f: Filter, m: string, sigma: Valuation, tau: Tests)
    requires env.Valid() && m in Refs(f) && m in env.sets && Stratified(env, f, sigma, tau)
    ensures Stratified(env, env.sets[m], sigma, tau)
  {
    forall n | Names(env, env.sets[m], n) ensures Names(env, f, n) { NamesThrough(env, f, m, n); }
  }

  lemma {:induction false} Named(env: Env, f: Filter, n: string)
    requires n in Refs(f)
    ensures Names(env, f, n)
  {
    assert NamesAt(env, f, [], n);
  }

  lemma {:induction false} PlainIsMeaning(env: Env, f: Filter, sigma: Valuation, tau: Tests, q: Prefix)
    requires env.Valid() && q.Valid() && Stratified(env, f, sigma, tau) && !Symbolic(env, f)
    ensures Meaning(env, f, LfpOf(env, tau), tau, q) <==> Meaning(env, f, sigma, tau, q)
  {
    forall n, p: Prefix | n in Refs(f) && n in env.sets && p.Valid() ensures sigma(n, p) <==> LfpOf(env, tau)(n, p) {
      Named(env, f, n);
      if Symbolic(env, env.sets[n]) { SymbolicIntro(env, f, n); }
    }
    MeaningAgrees(env, f, sigma, LfpOf(env, tau), tau, q);
  }

  lemma {:induction false} SetIsMeaning(env: Env, f: Filter, sigma: Valuation, tau: Tests, q: Prefix)
    requires env.Valid() && q.Valid() && f.FFilterSet? && f.op.IsZero() && f.name in env.sets && Symbolic(env, f)
    requires Stratified(env, f, sigma, tau)
    ensures Meaning(env, env.sets[f.name], sigma, tau, q) <==> Meaning(env, f, sigma, tau, q)
  {
    SetSymbolic(env, f);
    Named(env, f, f.name);
    assert SetYields(sigma, f.name, f.op, q) <==> sigma(f.name, q) by {
      if sigma(f.name, q) { assert f.op.Yields(q, q); }
    }
  }

  /** What unfolding answers is what every such valuation says. */
  lemma {:induction false} UnfoldIsMeaning(env: Env, f: Filter, fuel: nat, sigma: Valuation, tau: Tests, q: Prefix)
    requires env.Valid() && q.Valid() && Stratified(env, f, sigma, tau) && Unfold(env, f, fuel, tau, q).Some?
    ensures Unfold(env, f, fuel, tau, q).value <==> Meaning(env, f, sigma, tau, q)
    decreases fuel, f, 1
  {
    if !Symbolic(env, f) {
      PlainIsMeaning(env, f, sigma, tau, q);
    } else {
      match f
      case FNot(g) =>
        StratifiedTerm(env, f, g, sigma, tau);
        UnfoldIsMeaning(env, g, fuel, sigma, tau, q);
      case FOr(ts) => UnfoldAllIsMeaning(env, ts, fuel, sigma, tau, q);
      case FAnd(ts) =>
        StratifiedTerm(env, f, FOr(ts), sigma, tau);
        UnfoldAllIsMeaning(env, ts, fuel, sigma, tau, q);
        NonEmptySymbolic(env, f);
      case FTest(_, _) =>
      case FFilterSet(n, op) =>
        StratifiedSet(env, f, n, sigma, tau);
        UnfoldIsMeaning(env, env.sets[n], fuel - 1, sigma, tau, q);
        SetIsMeaning(env, f, sigma, tau, q);
      case _ =>
    }
  }

  lemma NonEmptySymbolic(env: Env, f: Filter)
    requires Symbolic(env, f) && (f.FOr? || f.FAnd?)
    ensures f.terms != []
  {
    var path :| SymbolAt(env, f, path);
    assert if path == [] then HasSymbol(f) else path[0] in Refs(f);
  }

  lemma SetSymbolic(env: Env, f: Filter)
    requires Symbolic(env, f) && f.FFilterSet?
    ensures f.name in env.sets && Symbolic(env, env.sets[f.name])
  {
    var path :| SymbolAt(env, f, path);
    assert SymbolAt(env, env.sets[f.name], path[1..]);
  }

  lemma {:induction false} UnfoldAllIsMeaning(env: Env, ts: seq<Filter>, fuel: nat, sigma: Valuation, tau: Tests,
                                              q: Prefix)
    requires env.Valid() && q.Valid() && Stratified(env, FOr(ts), sigma, tau)
    ensures UnfoldSome(env, ts, fuel, tau, q).Some? ==>
            (UnfoldSome(env, ts, fuel, tau, q).value <==> SomeMeaning(env, ts, sigma, tau, q))
    ensures UnfoldEach(env, ts, fuel, tau, q).Some? ==>
            (UnfoldEach(env, ts, fuel, tau, q).value <==> EachMeaning(env, ts, sigma, tau, q))
    decreases fuel, ts, 0
  {
    if ts != [] {
      StratifiedTerm(env, FOr(ts), ts[0], sigma, tau);
      StratifiedTerm(env, FOr(ts), FOr(ts[1..]), sigma, tau);
      if Unfold(env, ts[0], fuel, tau, q).Some? { UnfoldIsMeaning(env, ts[0], fuel, sigma, tau, q); }
      UnfoldAllIsMeaning(env, ts[1..], fuel, sigma, tau, q);
    }
  }

  // ---- such a valuation exists ----

  /** Whether unfolding answers does not depend on the prefix. */
  lemma {:induction false} SameAnswered(env: Env, f: Filter, fuel: nat, tau: Tests, q: Prefix, p: Prefix)
    requires env.Valid()
    ensures Unfold(env, f, fuel, tau, q).Some? == Unfold(env, f, fuel, tau, p).Some?
    decreases fuel, f, 1
  {
    if Symbolic(env, f) {
      match f
      case FNot(g) => SameAnswered(env, g, fuel, tau, q, p);
      case FOr(ts) => SameAnsweredAll(env, ts, fuel, tau, q, p);
      case FAnd(ts) => SameAnsweredAll(env, ts, fuel, tau, q, p);
      case FFilterSet(n, op) => if fuel > 0 && n in env.sets { SameAnswered(env, env.sets[n], fuel - 1, tau, q, p); }
      case _ =>
    }
  }

  lemma {:induction false} SameAnsweredAll(env: Env, ts: seq<Filter>, fuel: nat, tau: Tests, q: Prefix, p: Prefix)
    requires env.Valid()
    ensures UnfoldSome(env, ts, fuel, tau, q).Some? == UnfoldSome(env, ts, fuel, tau, p).Some?
    ensures UnfoldEach(env, ts, fuel, tau, q).Some? == UnfoldEach(env, ts, fuel, tau, p).Some?
    decreases fuel, ts, 0
  {
    if ts != [] {
      SameAnswered(env, ts[0], fuel, tau, q, p);
      SameAnsweredAll(env, ts[1..], fuel, tau, q, p);
    }
  }

  /** The symbolic filter-sets an unfolded filter names unfold, one level less deep. */
  lemma {:induction false} RefUnfolds(env: Env, f: Filter, fuel: nat, tau: Tests, q: Prefix, n: string)
    requires env.Valid() && Unfold(env, f, fuel, tau, q).Some? && n in Refs(f) && n in env.sets
    requires Symbolic(env, env.sets[n])
    ensures fuel > 0 && Unfold(env, env.sets[n], fuel - 1, tau, q).Some?
    decreases f, 1
  {
    SymbolicIntro(env, f, n);
    match f
    case FNot(g) => RefUnfolds(env, g, fuel, tau, q, n);
    case FOr(ts) => RefUnfoldsAll(env, ts, fuel, tau, q, n);
    case FAnd(ts) => RefUnfoldsAll(env, ts, fuel, tau, q, n);
    case _ =>
  }

  lemma {:induction false} RefUnfoldsAll(env: Env, ts: seq<Filter>, fuel: nat, tau: Tests, q: Prefix, n: string)
    requires env.Valid() && (UnfoldSome(env, ts, fuel, tau, q).Some? || UnfoldEach(env, ts, fuel, tau, q).Some?)
    requires n in RefsAll(ts) && n in env.sets && Symbolic(env, env.sets[n])
    ensures fuel > 0 && Unfold(env, env.sets[n], fuel - 1, tau, q).Some?
    decreases ts, 0
  {
    if n in Refs(ts[0]) {
      RefUnfolds(env, ts[0], fuel, tau, q, n);
    } else {
      RefUnfoldsAll(env, ts[1..], fuel, tau, q, n);
    }
  }

  /** So do those it comes to name. */
  lemma {:induction false} NamedUnfolds(env: Env, f: Filter, fuel: nat, tau: Tests, q: Prefix, path: seq<string>,
                                        n: string)
    requires env.Valid() && Unfold(env, f, fuel, tau, q).Some? && NamesAt(env, f, path, n) && n in env.sets
    requires Symbolic(env, env.sets[n])
    ensures fuel > 0 && Unfold(env, env.sets[n], fuel - 1, tau, q).Some?
    decreases |path|
  {
    if path == [] {
      RefUnfolds(env, f, fuel, tau, q, n);
    } else {
      var m := path[0];
      SymbolicAlong(env, env.sets[m], path[1..], n);
      RefUnfolds(env, f, fuel, tau, q, m);
      NamedUnfolds(env, env.sets[m], fuel - 1, tau, q, path[1..], n);
      UnfoldDeeper(env, env.sets[n], fuel - 2, fuel - 1, tau, q);
    }
  }

  lemma {:induction false} SymbolicAlong(env: Env, f: Filter, path: seq<string>, n: string)
    requires NamesAt(env, f, path, n) && n in env.sets && Symbolic(env, env.sets[n])
    ensures Symbolic(env, f)
    decreases |path|
  {
    if path == [] {
      SymbolicIntro(env, f, n);
    } else {
      SymbolicAlong(env, env.sets[path[0]], path[1..], n);
      SymbolicIntro(env, f, path[0]);
    }
  }

  /** Each filter-set is what unfolding it fuel deep says, or least. */
  ghost function Unfolded(env: Env, fuel: nat, tau: Tests): Valuation
    requires env.Valid()
  {
    (n: string, q: Prefix) =>
      if n in env.sets && Symbolic(env, env.sets[n]) then Unfold(env, env.sets[n], fuel, tau, q) == Some(true)
      else Lfp(env, tau, n, q)
  }

  /** Under it an unfolded filter means what unfolding says. */
  lemma {:induction false} UnfoldedMeans(env: Env, f: Filter, fuel: nat, deep: nat, tau: Tests, q: Prefix)
    requires env.Valid() && q.Valid() && fuel <= deep && Unfold(env, f, fuel, tau, q).Some?
    ensures Unfold(env, f, fuel, tau, q).value <==> Meaning(env, f, Unfolded(env, deep, tau), tau, q)
    decreases f, 1
  {
    var sigma := Unfolded(env, deep, tau);
    if !Symbolic(env, f) {
      forall n, p: Prefix | n in Refs(f) && n in env.sets && p.Valid() ensures sigma(n, p) <==> LfpOf(env, tau)(n, p) {
        if Symbolic(env, env.sets[n]) { SymbolicIntro(env, f, n); }
      }
      MeaningAgrees(env, f, sigma, LfpOf(env, tau), tau, q);
    } else {
      match f
      case FNot(g) => UnfoldedMeans(env, g, fuel, deep, tau, q);
      case FOr(ts) => UnfoldedAllMean(env, ts, fuel, deep, tau, q);
      case FAnd(ts) =>
        UnfoldedAllMean(env, ts, fuel, deep, tau, q);
        NonEmptySymbolic(env, f);
      case FFilterSet(n, op) =>
        SetSymbolic(env, f);
        UnfoldDeeper(env, env.sets[n], fuel - 1, deep, tau, q);
        assert SetYields(sigma, n, op, q) <==> sigma(n, q) by {
          if sigma(n, q) { assert op.Yields(q, q); }
        }
      case _ =>
    }
  }

  lemma {:induction false} UnfoldedAllMean(env: Env, ts: seq<Filter>, fuel: nat, deep: nat, tau: Tests, q: Prefix)
    requires env.Valid() && q.Valid() && fuel <= deep
    ensures UnfoldSome(env, ts, fuel, tau, q).Some? ==>
              (UnfoldSome(env, ts, fuel, tau, q).value <==> SomeMeaning(env, ts, Unfolded(env, deep, tau), tau, q))
    ensures UnfoldEach(env, ts, fuel, tau, q).Some? ==>
              (UnfoldEach(env, ts, fuel, tau, q).value <==> EachMeaning(env, ts, Unfolded(env, deep, tau), tau, q))
    decreases ts, 0
  {
    if ts != [] {
      if Unfold(env, ts[0], fuel, tau, q).Some? { UnfoldedMeans(env, ts[0], fuel, deep, tau, q); }
      UnfoldedAllMean(env, ts[1..], fuel, deep, tau, q);
    }
  }

  /** If unfolding f answers, some valuation is stratified for f. */
  lemma {:induction false} UnfoldedStratified(env: Env, f: Filter, fuel: nat, tau: Tests, q: Prefix)
    requires env.Valid() && Unfold(env, f, fuel, tau, q).Some?
    ensures Stratified(env, f, Unfolded(env, fuel, tau), tau)
  {
    forall n, p: Prefix | n in env.sets && Names(env, f, n) && p.Valid() && Symbolic(env, env.sets[n])
      ensures Unfolded(env, fuel, tau)(n, p) <==> Meaning(env, env.sets[n], Unfolded(env, fuel, tau), tau, p)
    {
      SameAnswered(env, f, fuel, tau, q, p);
      var path :| NamesAt(env, f, path, n);
      NamedUnfolds(env, f, fuel, tau, p, path, n);
      UnfoldedMeans(env, env.sets[n], fuel - 1, fuel, tau, p);
      UnfoldDeeper(env, env.sets[n], fuel - 1, fuel, tau, p);
    }
  }
}
