/** Flatten with its budget (policy/flatten.go:50-288): it charges every term it builds, and what it returns
    fits the budget. */
module Flattener {
  import opened Collections
  import opened Prefixes
  import opened Policies
  import opened Flattening
  import opened FlattenTerms
  import opened FlattenActions
  import opened FlattenCosts

  /** e, depth levels down, nests no deeper than Flatten goes. */
  predicate Fits(e: Expr, af: AddrFamily, depth: nat) {
    depth <= MAX_FLATTEN_DEPTH &&
    match e
    case Factor(_, _) => true
    case List(es) => AllFit(es, af, depth + 1)
    case Refine(l, r, afis) => Fits(l, af, depth + 1) && (InEffect(afis, af) ==> Fits(r, af, depth + 1))
    case Except(l, r, afis) => Fits(l, af, depth + 1) && (InEffect(afis, af) ==> Fits(r, af, depth + 1))
  }

  predicate AllFit(es: seq<Expr>, af: AddrFamily, depth: nat) {
    es == [] || (Fits(es[0], af, depth) && AllFit(es[1..], af, depth))
  }

  /** How many levels are below the top of e, of what is in effect for af. */
  function Height(e: Expr, af: AddrFamily): nat {
    match e
    case Factor(_, _) => 0
    case List(es) => HeightOf(es, af)
    case Refine(l, r, afis) => 1 + if InEffect(afis, af) then Max(Height(l, af), Height(r, af)) else Height(l, af)
    case Except(l, r, afis) => 1 + if InEffect(afis, af) then Max(Height(l, af), Height(r, af)) else Height(l, af)
  }

  function HeightOf(es: seq<Expr>, af: AddrFamily): nat {
    if es == [] then 0 else Max(1 + Height(es[0], af), HeightOf(es[1..], af))
  }

  lemma {:induction false} FitsIff(e: Expr, af: AddrFamily, depth: nat)
    ensures Fits(e, af, depth) <==> depth + Height(e, af) <= MAX_FLATTEN_DEPTH
    decreases e
  {
    match e
    case Factor(_, _) =>
    case List(es) => AllFitIff(es, af, depth);
    case Refine(l, r, _) => FitsIff(l, af, depth + 1); FitsIff(r, af, depth + 1);
    case Except(l, r, _) => FitsIff(l, af, depth + 1); FitsIff(r, af, depth + 1);
  }

  lemma {:induction false} AllFitIff(es: seq<Expr>, af: AddrFamily, depth: nat)
    ensures depth <= MAX_FLATTEN_DEPTH ==>
              (AllFit(es, af, depth + 1) <==> depth + HeightOf(es, af) <= MAX_FLATTEN_DEPTH)
    decreases es
  {
    if es != [] {
      FitsIff(es[0], af, depth + 1);
      AllFitIff(es[1..], af, depth);
    }
  }

  // ---- the flattener ----

  class Flattener {
    const af: AddrFamily
    var spent: nat
    var failed: bool

    constructor (af: AddrFamily)
      ensures this.af == af && spent == 0 && !failed
    {
      this.af, spent, failed := af, 0, false;
    }

    /** Spending n more from was keeps within the budget, and nothing had failed. */
    ghost predicate Spent(was: nat, hadFailed: bool, n: nat)
      reads this
    {
      (failed <==> hadFailed || was + n > MAX_FLATTEN_NODES) && (!failed ==> spent == was + n)
    }

    method Charge(w: nat) returns (ok: bool)
      requires !failed ==> spent <= MAX_FLATTEN_NODES
      modifies this
      ensures ok == !failed && Spent(old(spent), old(failed), w + 1)
    {
      if failed { return false; }
      spent := spent + w + 1;
      if spent > MAX_FLATTEN_NODES {
        failed := true;
        return false;
      }
      return true;
    }

    /** The terms of one left-hand term. */
    method RefineTerm(l: Term, right: seq<Term>) returns (out: seq<Term>)
      requires !failed ==> spent <= MAX_FLATTEN_NODES
      modifies this
      ensures Spent(old(spent), old(failed), Charges(RefineRow(l, right)))
      ensures !failed ==> out == RefineRow(l, right)
    {
      out := [];
      ghost var all := RefineRow(l, right);
      assert right[0..] == right;
      for j := 0 to |right|
        invariant failed == old(failed) && all == out + RefineRow(l, right[j..])
        invariant !failed ==> spent == old(spent) + Charges(out) <= MAX_FLATTEN_NODES
        invariant failed ==> out == []
      {
        assert right[j..][0] == right[j] && right[j..][1..] == right[j + 1..];
        var pair := RefinePair(l, right[j]);
        Assoc(out, pair, RefineRow(l, right[j + 1..]));
        Parts(out, pair, RefineRow(l, right[j + 1..]));
        if pair != [] {
          assert pair[1..] == [];
          var ok := Charge(pair[0].w);
          if !ok { return []; }
          out := out + pair;
        } else {
          assert out + pair == out;
        }
      }
      assert right[|right|..] == [] && out + [] == out;
    }

    method RefineTerms(left: seq<Term>, right: seq<Term>) returns (out: seq<Term>)
      requires !failed ==> spent <= MAX_FLATTEN_NODES
      modifies this
      ensures Spent(old(spent), old(failed), Charges(RefineAll(left, right)))
      ensures !failed ==> out == RefineAll(left, right)
    {
      out := [];
      ghost var all := RefineAll(left, right);
      assert left[0..] == left;
      for i := 0 to |left|
        invariant failed == old(failed) && all == out + RefineAll(left[i..], right)
        invariant !failed ==> spent == old(spent) + Charges(out) <= MAX_FLATTEN_NODES
        invariant failed ==> out == []
      {
        assert left[i..][0] == left[i] && left[i..][1..] == left[i + 1..];
        ghost var row, rest := RefineRow(left[i], right), RefineAll(left[i + 1..], right);
        Assoc(out, row, rest);
        Parts(out, row, rest);
        var more := RefineTerm(left[i], right);
        if failed { return []; }
        out := out + more;
      }
      assert left[|left|..] == [] && out + [] == out;
    }

    /** The right-hand terms for what one left-hand term covers. */
    method ExceptTerm(l: Term, right: seq<Term>) returns (out: seq<Term>)
      requires !failed ==> spent <= MAX_FLATTEN_NODES
      modifies this
      ensures Spent(old(spent), old(failed), Charges(ExceptRow(l, right)))
      ensures !failed ==> out == ExceptRow(l, right)
    {
      out := [];
      ghost var all := ExceptRow(l, right);
      assert right[0..] == right;
      for j := 0 to |right|
        invariant failed == old(failed) && all == out + ExceptRow(l, right[j..])
        invariant !failed ==> spent == old(spent) + Charges(out) <= MAX_FLATTEN_NODES
        invariant failed ==> out == []
      {
        assert right[j..][0] == right[j] && right[j..][1..] == right[j + 1..];
        var t := Exception(l, right[j]);
        Assoc(out, [t], ExceptRow(l, right[j + 1..]));
        Parts(out, [t], ExceptRow(l, right[j + 1..]));
        assert [t][1..] == [];
        var ok := Charge(t.w);
        if !ok { return []; }
        out := out + [t];
      }
      assert right[|right|..] == [] && out + [] == out;
    }

    method ExceptionTerms(left: seq<Term>, right: seq<Term>) returns (out: seq<Term>)
      requires !failed ==> spent <= MAX_FLATTEN_NODES
      modifies this
      ensures Spent(old(spent), old(failed), Charges(Exceptions(left, right)))
      ensures !failed ==> out == Exceptions(left, right)
    {
      out := [];
      ghost var all := Exceptions(left, right);
      assert left[0..] == left;
      for i := 0 to |left|
        invariant failed == old(failed) && all == out + Exceptions(left[i..], right)
        invariant !failed ==> spent == old(spent) + Charges(out) <= MAX_FLATTEN_NODES
        invariant failed ==> out == []
      {
        assert left[i..][0] == left[i] && left[i..][1..] == left[i + 1..];
        ghost var row, rest := ExceptRow(left[i], right), Exceptions(left[i + 1..], right);
        Assoc(out, row, rest);
        Parts(out, row, rest);
        var more := ExceptTerm(left[i], right);
        if failed { return []; }
        out := out + more;
      }
      assert left[|left|..] == [] && out + [] == out;
    }

    /** The left-hand terms, less what the right took. */
    method RemainderTerms(left: seq<Term>, rest: Option<Test>, restW: nat) returns (out: seq<Term>)
      requires !failed ==> spent <= MAX_FLATTEN_NODES
      modifies this
      ensures Spent(old(spent), old(failed), Charges(Remainders(left, rest, restW)))
      ensures !failed ==> out == Remainders(left, rest, restW)
    {
      out := [];
      ghost var all := Remainders(left, rest, restW);
      assert left[0..] == left;
      for i := 0 to |left|
        invariant failed == old(failed) && all == out + Remainders(left[i..], rest, restW)
        invariant !failed ==> spent == old(spent) + Charges(out) <= MAX_FLATTEN_NODES
        invariant failed ==> out == []
      {
        assert left[i..][0] == left[i] && left[i..][1..] == left[i + 1..];
        var t := Remainder(left[i], rest, restW);
        Assoc(out, [t], Remainders(left[i + 1..], rest, restW));
        Parts(out, [t], Remainders(left[i + 1..], rest, restW));
        assert [t][1..] == [];
        var ok := Charge(t.w);
        if !ok { return []; }
        out := out + [t];
      }
      assert left[|left|..] == [] && out + [] == out;
    }

    /** The filters the right-hand terms have, and their weight. */
    method CoveredBy(right: seq<Term>) returns (covered: seq<Test>, restW: nat)
      ensures covered == Covered(right) && restW == 2 + CoveredWeight(right)
    {
      covered, restW := [], 2;
      assert right[0..] == right;
      for j := 0 to |right|
        invariant Covered(right) == covered + Covered(right[j..])
        invariant 2 + CoveredWeight(right) == restW + CoveredWeight(right[j..])
      {
        assert right[j..][0] == right[j] && right[j..][1..] == right[j + 1..];
        if right[j].filter.Some? {
          Assoc(covered, [right[j].filter.value], Covered(right[j + 1..]));
          covered, restW := covered + [right[j].filter.value], restW + right[j].w;
        } else {
          assert [] + Covered(right[j + 1..]) == Covered(right[j + 1..]);
        }
      }
      assert right[|right|..] == [] && covered + [] == covered;
    }

    method ExceptTerms(left: seq<Term>, right: seq<Term>) returns (out: seq<Term>)
      requires !failed ==> spent <= MAX_FLATTEN_NODES
      modifies this
      ensures Spent(old(spent), old(failed), if right == [] then 0 else Charges(ExceptAll(left, right)))
      ensures !failed ==> out == ExceptAll(left, right)
    {
      if right == [] { return left; }
      var taken := ExceptionTerms(left, right);
      var covered, restW := CoveredBy(right);
      var rest := RemainderTerms(left, OrFilters(covered), restW);
      ChargesAppend(Exceptions(left, right), Remainders(left, OrFilters(covered), restW));
      out := taken + rest;
    }

    method FactorOf(peers: seq<PeerActions>, f: Option<Test>, w: nat) returns (out: seq<Term>)
      requires !failed ==> spent <= MAX_FLATTEN_NODES
      modifies this
      ensures Spent(old(spent), old(failed), Charges(FactorTerms(peers, f, w)))
      ensures !failed ==> out == FactorTerms(peers, f, w)
    {
      out := [];
      ghost var all := FactorTerms(peers, f, w);
      assert peers[0..] == peers;
      for i := 0 to |peers|
        invariant failed == old(failed) && all == out + FactorTerms(peers[i..], f, w)
        invariant !failed ==> spent == old(spent) + Charges(out) <= MAX_FLATTEN_NODES
        invariant failed ==> out == []
      {
        assert peers[i..][0] == peers[i] && peers[i..][1..] == peers[i + 1..];
        var t := Term(peers[i].via, peers[i].peering, peers[i].actions, f, w);
        Assoc(out, [t], FactorTerms(peers[i + 1..], f, w));
        Parts(out, [t], FactorTerms(peers[i + 1..], f, w));
        assert [t][1..] == [];
        var ok := Charge(w);
        if !ok { return []; }
        out := out + [t];
      }
      assert peers[|peers|..] == [] && out + [] == out;
    }

    /** flatten: it fails exactly when e nests too deep or its terms cost too much, and otherwise gives
        e's terms. */
    method Flatten(e: Expr, depth: nat) returns (out: seq<Term>)
      requires !failed ==> spent <= MAX_FLATTEN_NODES
      modifies this
      ensures failed <==> old(failed) || !Fits(e, af, depth) || old(spent) + Cost(e, af) > MAX_FLATTEN_NODES
      ensures !failed ==> spent == old(spent) + Cost(e, af) && out == Flat(e, af)
      decreases e, 1
    {
      if failed { return []; }
      if depth > MAX_FLATTEN_DEPTH {
        failed := true;
        return [];
      }
      match e
      case Factor(peers, f) => out := FactorOf(peers, f, SizeOf(f));
      case List(es) => out := FlattenList(es, depth + 1);
      case Refine(l, r, afis) =>
        out := Flatten(l, depth + 1);
        if InEffect(afis, af) {
          var right := Flatten(r, depth + 1);
          if failed { return []; }
          out := RefineTerms(out, right);
        }
      case Except(l, r, afis) =>
        out := Flatten(l, depth + 1);
        if InEffect(afis, af) {
          var right := Flatten(r, depth + 1);
          if failed { return []; }
          out := ExceptTerms(out, right);
        }
    }

    method FlattenList(es: seq<Expr>, depth: nat) returns (out: seq<Term>)
      requires !failed ==> spent <= MAX_FLATTEN_NODES
      modifies this
      ensures failed <==> old(failed) || !AllFit(es, af, depth) || old(spent) + CostOf(es, af) > MAX_FLATTEN_NODES
      ensures !failed ==> spent == old(spent) + CostOf(es, af) && out == FlatList(es, af)
      decreases es, 0
    {
      if es == [] { return []; }
      out := Flatten(es[0], depth);
      var more := FlattenList(es[1..], depth);
      out := out + more;
    }
  }

  lemma {:induction false} Parts(a: seq<Term>, b: seq<Term>, c: seq<Term>)
    ensures Charges(a + b) == Charges(a) + Charges(b) && Charges((a + b) + c) == Charges(a) + Charges(b) + Charges(c)
  {
    ChargesAppend(a, b);
    ChargesAppend(a + b, c);
  }

  // ---- the terms returned fit the budget ----

  /** The filter nodes of ts. */
  function NodesOfTerms(ts: seq<Term>): nat { if ts == [] then 0 else NodesIn(ts[0].filter) + NodesOfTerms(ts[1..]) }

  /** Every term weighs at least its filter's nodes. */
  predicate Weighed(ts: seq<Term>) { ts == [] || (NodesIn(ts[0].filter) <= ts[0].w && Weighed(ts[1..])) }

  lemma {:induction false} WeighedAppend(a: seq<Term>, b: seq<Term>)
    requires Weighed(a) && Weighed(b)
    ensures Weighed(a + b)
    decreases |a|
  {
    if a == [] {
      assert a + b == b;
    } else {
      WeighedAppend(a[1..], b);
      assert (a + b)[0] == a[0] && (a + b)[1..] == a[1..] + b;
    }
  }

  lemma {:induction false} WeighedCharges(ts: seq<Term>)
    requires Weighed(ts)
    ensures NodesOfTerms(ts) + |ts| <= Charges(ts)
    decreases |ts|
  {
    if ts != [] { WeighedCharges(ts[1..]); }
  }

  lemma {:induction false} RefineRowWeighed(l: Term, right: seq<Term>)
    requires NodesIn(l.filter) <= l.w && Weighed(right)
    ensures Weighed(RefineRow(l, right))
    decreases |right|
  {
    if right != [] {
      RefineRowWeighed(l, right[1..]);
      AndFiltersNodes(l.filter, right[0].filter);
      var pair := RefinePair(l, right[0]);
      if pair != [] { assert pair[1..] == []; }
      WeighedAppend(pair, RefineRow(l, right[1..]));
    }
  }

  lemma {:induction false} RefineWeighed(left: seq<Term>, right: seq<Term>)
    requires Weighed(left) && Weighed(right)
    ensures Weighed(RefineAll(left, right))
    decreases |left|
  {
    if left != [] {
      RefineRowWeighed(left[0], right);
      RefineWeighed(left[1..], right);
      WeighedAppend(RefineRow(left[0], right), RefineAll(left[1..], right));
    }
  }

  lemma {:induction false} ExceptRowWeighed(l: Term, right: seq<Term>)
    requires NodesIn(l.filter) <= l.w && Weighed(right)
    ensures Weighed(ExceptRow(l, right))
    decreases |right|
  {
    if right != [] {
      ExceptRowWeighed(l, right[1..]);
      AndFiltersNodes(l.filter, right[0].filter);
      assert ExceptRow(l, right)[1..] == ExceptRow(l, right[1..]);
    }
  }

  lemma {:induction false} ExceptionsWeighed(left: seq<Term>, right: seq<Term>)
    requires Weighed(left) && Weighed(right)
    ensures Weighed(Exceptions(left, right))
    decreases |left|
  {
    if left != [] {
      ExceptRowWeighed(left[0], right);
      ExceptionsWeighed(left[1..], right);
      WeighedAppend(ExceptRow(left[0], right), Exceptions(left[1..], right));
    }
  }

  lemma {:induction false} CoveredNodes(right: seq<Term>)
    requires Weighed(right)
    ensures NodesOf(Covered(right)) <= CoveredWeight(right)
    decreases |right|
  {
    if right != [] {
      CoveredNodes(right[1..]);
      if right[0].filter.Some? {
        var fs := Covered(right);
        assert fs[0] == right[0].filter.value && fs[1..] == Covered(right[1..]);
      } else {
        assert [] + Covered(right[1..]) == Covered(right[1..]);
      }
    }
  }

  lemma {:induction false} RemaindersWeighed(left: seq<Term>, rest: Option<Test>, restW: nat)
    requires Weighed(left) && (rest.Some? ==> 1 + Nodes(rest.value) <= restW)
    ensures Weighed(Remainders(left, rest, restW))
    decreases |left|
  {
    if left != [] {
      RemaindersWeighed(left[1..], rest, restW);
      if rest.Some? { AndFiltersNodes(left[0].filter, Some(Not(rest.value))); }
      assert Remainders(left, rest, restW)[1..] == Remainders(left[1..], rest, restW);
    }
  }

  lemma {:induction false} ExceptWeighed(left: seq<Term>, right: seq<Term>)
    requires Weighed(left) && Weighed(right)
    ensures Weighed(ExceptAll(left, right))
  {
    if right != [] {
      CoveredNodes(right);
      OrFiltersNodes(Covered(right));
      ExceptionsWeighed(left, right);
      RemaindersWeighed(left, OrFilters(Covered(right)), 2 + CoveredWeight(right));
      WeighedAppend(Exceptions(left, right), Remainders(left, OrFilters(Covered(right)), 2 + CoveredWeight(right)));
    }
  }

  lemma {:induction false} FactorWeighed(peers: seq<PeerActions>, f: Option<Test>, w: nat)
    requires NodesIn(f) <= w
    ensures Weighed(FactorTerms(peers, f, w))
    decreases |peers|
  {
    if peers != [] {
      FactorWeighed(peers[1..], f, w);
      assert FactorTerms(peers, f, w)[1..] == FactorTerms(peers[1..], f, w);
    }
  }

  lemma {:induction false} FlatWeighed(e: Expr, af: AddrFamily)
    requires Shallow(e)
    ensures Weighed(Flat(e, af))
    decreases e, 0
  {
    match e
    case Factor(peers, f) =>
      if f.Some? { FilterSizeExact(f.value, 0); }
      FactorWeighed(peers, f, SizeOf(f));
    case List(es) => FlatListWeighed(es, af);
    case Refine(l, r, afis) =>
      FlatWeighed(l, af);
      FlatWeighed(r, af);
      RefineWeighed(Flat(l, af), Flat(r, af));
    case Except(l, r, afis) =>
      FlatWeighed(l, af);
      FlatWeighed(r, af);
      ExceptWeighed(Flat(l, af), Flat(r, af));
  }

  lemma {:induction false} FlatListWeighed(es: seq<Expr>, af: AddrFamily)
    requires AllShallow(es)
    ensures Weighed(FlatList(es, af))
    decreases es, 0
  {
    if es != [] {
      FlatWeighed(es[0], af);
      FlatListWeighed(es[1..], af);
      WeighedAppend(Flat(es[0], af), FlatList(es[1..], af));
    }
  }

  /** Flatten: for a parsed policy whose factors all have filters, the terms accept exactly what the policy
      does and, read in order, give each route its actions; and their filter nodes and themselves fit
      MaxFlattenNodes. None is ErrFlattenTooLarge. */
  method Flatten(e: Expr, af: AddrFamily) returns (r: Option<seq<Term>>)
    ensures r.Some? <==> Height(e, af) <= MAX_FLATTEN_DEPTH && Cost(e, af) <= MAX_FLATTEN_NODES
    ensures Height(e, af) <= MAX_FLATTEN_DEPTH && Budget(e, af) <= MAX_FLATTEN_NODES ==> r.Some?
    ensures Open(e) && Shallow(e) && Complete(e) ==>
              (r.Some? <==> Height(e, af) <= MAX_FLATTEN_DEPTH && Budget(e, af) <= MAX_FLATTEN_NODES)
    ensures r.Some? && Shallow(e) ==> NodesOfTerms(r.value) + |r.value| <= MAX_FLATTEN_NODES
    ensures r.Some? && Complete(e) ==> forall x, y, route: Route :: SomeAccepts(r.value, x, y, route) <==>
            Accepts(e, af, x, y, route)
    ensures r.Some? && Complete(e) ==>
            forall x, y, route: Route :: First(r.value, x, y, route) == Chosen(e, af, x, y, route)
  {
    var f := new Flattener(af);
    var ts := f.Flatten(e, 0);
    FitsIff(e, af, 0);
    CostBounded(e, af);
    if Open(e) && Shallow(e) && Complete(e) { CostExact(e, af); }
    if f.failed { return None; }
    CostCovers(e, af);
    if Shallow(e) {
      FlatWeighed(e, af);
      WeighedCharges(ts);
    }
    if Complete(e) {
      forall x, y, route: Route
        ensures SomeAccepts(ts, x, y, route) <==> Accepts(e, af, x, y, route)
      {
        FlatAccepts(e, af, x, y, route);
      }
      forall x, y, route: Route
        ensures First(ts, x, y, route) == Chosen(e, af, x, y, route)
      {
        FlatChosen(e, af, x, y, route);
      }
    }
    return Some(ts);
  }
}
