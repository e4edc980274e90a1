/** Flattening EXCEPT and REFINE into terms (policy/flatten.go:122-377). */
module Flattening {
  import opened Prefixes
  import opened Policies

  /** A flattened policy with its filter's weight. */
  datatype Term = Term(via: Option<Peering>, peering: Peering, actions: seq<Action>, filter: Option<Test>, w: nat)

  const MAX_FLATTEN_NODES: nat := 0x10_0000

  const MAX_FLATTEN_DEPTH: nat := 1000

  // ---- filters ----

  /** andFilters: AND chains stay flat, and an absent filter is no constraint. */
  function AndFilters(a: Option<Test>, b: Option<Test>): Option<Test> {
    if a.None? then b else if b.None? then a else Some(And(AndTerms(a.value) + AndTerms(b.value)))
  }

  function AndTerms(f: Test): seq<Test> { if f.And? then f.terms else [f] }

  function OrTerms(f: Test): seq<Test> { if f.Or? then f.terms else [f] }

  function OrTermsOf(fs: seq<Test>): seq<Test> { if fs == [] then [] else OrTerms(fs[0]) + OrTermsOf(fs[1..]) }

  function OrFilters(fs: seq<Test>): Option<Test> {
    if fs == [] then None else if |fs| == 1 then Some(fs[0]) else Some(Or(OrTermsOf(fs)))
  }

  lemma {:induction false} AllPassAppend(a: seq<Test>, b: seq<Test>, r: Route)
    ensures AllPass(a + b, r) <==> AllPass(a, r) && AllPass(b, r)
    decreases |a|
  {
    if a == [] {
      assert a + b == b;
    } else {
      AllPassAppend(a[1..], b, r);
      assert (a + b)[0] == a[0] && (a + b)[1..] == a[1..] + b;
    }
  }

  lemma {:induction false} SomePassesAppend(a: seq<Test>, b: seq<Test>, r: Route)
    ensures SomePasses(a + b, r) <==> SomePasses(a, r) || SomePasses(b, r)
    decreases |a|
  {
    if a == [] {
      assert a + b == b;
    } else {
      SomePassesAppend(a[1..], b, r);
      assert (a + b)[0] == a[0] && (a + b)[1..] == a[1..] + b;
    }
  }

  lemma {:induction false} AllParsedAppend(a: seq<Test>, b: seq<Test>)
    requires AllParsed(a) && AllParsed(b)
    ensures AllParsed(a + b)
    decreases |a|
  {
    if a == [] {
      assert a + b == b;
    } else {
      AllParsedAppend(a[1..], b);
      assert (a + b)[0] == a[0] && (a + b)[1..] == a[1..] + b;
    }
  }

  lemma {:induction false} AndTermsPass(f: Test, r: Route)
    requires Parsed(f)
    ensures AllPass(AndTerms(f), r) <==> Passes(f, r)
    ensures AllParsed(AndTerms(f)) && AndTerms(f) != []
  {
    if !f.And? { assert [f][1..] == []; }
  }

  /** The conjunction passes what both do. */
  lemma {:induction false} AndFiltersPass(a: Option<Test>, b: Option<Test>, r: Route)
    requires (a.Some? ==> Parsed(a.value)) && (b.Some? ==> Parsed(b.value))
    ensures Admits(AndFilters(a, b), r) <==> Admits(a, r) && Admits(b, r)
    ensures AndFilters(a, b).Some? ==> Parsed(AndFilters(a, b).value)
  {
    if a.Some? && b.Some? {
      AndTermsPass(a.value, r);
      AndTermsPass(b.value, r);
      AllPassAppend(AndTerms(a.value), AndTerms(b.value), r);
      AllParsedAppend(AndTerms(a.value), AndTerms(b.value));
    }
  }

  lemma {:induction false} OrTermsPass(fs: seq<Test>, r: Route)
    requires AllParsed(fs)
    ensures SomePasses(OrTermsOf(fs), r) <==> SomePasses(fs, r)
    ensures AllParsed(OrTermsOf(fs)) && (fs != [] ==> OrTermsOf(fs) != [])
    decreases |fs|
  {
    if fs != [] {
      OrTermsPass(fs[1..], r);
      SomePassesAppend(OrTerms(fs[0]), OrTermsOf(fs[1..]), r);
      if !fs[0].Or? { assert [fs[0]][1..] == []; }
      AllParsedAppend(OrTerms(fs[0]), OrTermsOf(fs[1..]));
    }
  }

  /** The disjunction passes what one of them does. */
  lemma {:induction false} OrFiltersPass(fs: seq<Test>, r: Route)
    requires AllParsed(fs)
    ensures OrFilters(fs).Some? <==> fs != []
    ensures fs != [] ==> (Passes(OrFilters(fs).value, r) <==> SomePasses(fs, r)) && Parsed(OrFilters(fs).value)
  {
    OrTermsPass(fs, r);
  }

  // ---- nodes ----

  function Nodes(f: Test): nat {
    match f
    case And(ts) => 1 + NodesOf(ts)
    case Or(ts) => 1 + NodesOf(ts)
    case Not(g) => 1 + Nodes(g)
    case Leaf(_) => 1
  }

  function NodesOf(ts: seq<Test>): nat { if ts == [] then 0 else Nodes(ts[0]) + NodesOf(ts[1..]) }

  /** filterSize: nodes, counted no deeper than the parser nests. */
  function FilterSize(f: Test, depth: nat): nat {
    if depth > MAX_FLATTEN_DEPTH then 1
    else match f
      case And(ts) => 1 + FilterSizeOf(ts, depth + 1)
      case Or(ts) => 1 + FilterSizeOf(ts, depth + 1)
      case Not(g) => 1 + FilterSize(g, depth + 1)
      case Leaf(_) => 1
  }

  function FilterSizeOf(ts: seq<Test>, depth: nat): nat {
    if ts == [] then 0 else FilterSize(ts[0], depth) + FilterSizeOf(ts[1..], depth)
  }

  /** Levels of AND, OR and NOT. */
  function Levels(f: Test): nat {
    match f
    case And(ts) => 1 + LevelsOf(ts)
    case Or(ts) => 1 + LevelsOf(ts)
    case Not(g) => 1 + Levels(g)
    case Leaf(_) => 0
  }

  function LevelsOf(ts: seq<Test>): nat { if ts == [] then 0 else Max(Levels(ts[0]), LevelsOf(ts[1..])) }

  /** Within the parser's nesting the count is exact. */
  lemma {:induction false} FilterSizeExact(f: Test, depth: nat)
    requires depth + Levels(f) <= MAX_FLATTEN_DEPTH
    ensures FilterSize(f, depth) == Nodes(f)
    decreases f, 1
  {
    match f
    case And(ts) => FilterSizeOfExact(ts, depth + 1);
    case Or(ts) => FilterSizeOfExact(ts, depth + 1);
    case Not(g) => FilterSizeExact(g, depth + 1);
    case Leaf(_) =>
  }

  lemma {:induction false} FilterSizeOfExact(ts: seq<Test>, depth: nat)
    requires depth + LevelsOf(ts) <= MAX_FLATTEN_DEPTH
    ensures FilterSizeOf(ts, depth) == NodesOf(ts)
    decreases ts, 0
  {
    if ts != [] {
      FilterSizeExact(ts[0], depth);
      FilterSizeOfExact(ts[1..], depth);
    }
  }

  lemma {:induction false} NodesAppend(a: seq<Test>, b: seq<Test>)
    ensures NodesOf(a + b) == NodesOf(a) + NodesOf(b)
    decreases |a|
  {
    if a == [] {
      assert a + b == b;
    } else {
      NodesAppend(a[1..], b);
      assert (a + b)[0] == a[0] && (a + b)[1..] == a[1..] + b;
    }
  }

  function NodesIn(f: Option<Test>): nat { if f.None? then 0 else Nodes(f.value) }

  lemma {:induction false} AndFiltersNodes(a: Option<Test>, b: Option<Test>)
    ensures NodesIn(AndFilters(a, b)) <= NodesIn(a) + NodesIn(b) + 1
  {
    if a.Some? && b.Some? {
      NodesAppend(AndTerms(a.value), AndTerms(b.value));
      if !a.value.And? { assert [a.value][1..] == []; }
      if !b.value.And? { assert [b.value][1..] == []; }
    }
  }

  lemma {:induction false} OrTermsNodes(fs: seq<Test>)
    ensures NodesOf(OrTermsOf(fs)) <= NodesOf(fs)
    decreases |fs|
  {
    if fs != [] {
      OrTermsNodes(fs[1..]);
      NodesAppend(OrTerms(fs[0]), OrTermsOf(fs[1..]));
      if !fs[0].Or? { assert [fs[0]][1..] == []; }
    }
  }

  lemma {:induction false} OrFiltersNodes(fs: seq<Test>)
    ensures NodesIn(OrFilters(fs)) <= 1 + NodesOf(fs)
  {
    OrTermsNodes(fs);
    if |fs| == 1 { assert fs[1..] == []; }
  }
}
