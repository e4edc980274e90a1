/** What flattening a policy costs (policy/flatten.go:122-288): every term it builds is charged its filter's weight
    and one, and the sum is bounded by the policy's own factors. */
module FlattenCosts {
  import opened Prefixes
  import opened Policies
  import opened Flattening
  import opened FlattenTerms

  /** What charging ts spends: the weight of each, and one for the term. */
  function Charges(ts: seq<Term>): nat { if ts == [] then 0 else ts[0].w + 1 + Charges(ts[1..]) }

  lemma {:induction false} ChargesAppend(a: seq<Term>, b: seq<Term>)
    ensures Charges(a + b) == Charges(a) + Charges(b)
    decreases |a|
  {
    if a == [] {
      assert a + b == b;
    } else {
      ChargesAppend(a[1..], b);
      assert (a + b)[0] == a[0] && (a + b)[1..] == a[1..] + b;
    }
  }

  /** What flattening e spends, the terms it drops on the way included. */
  function Cost(e: Expr, af: AddrFamily): nat {
    match e
    case Factor(_, _) => Charges(Flat(e, af))
    case List(es) => CostOf(es, af)
    case Refine(l, r, afis) =>
      Cost(l, af) +
      if InEffect(afis, af) then Cost(r, af) + Charges(RefineAll(Flat(l, af), Flat(r, af))) else 0
    case Except(l, r, afis) =>
      Cost(l, af) +
      if InEffect(afis, af) then Cost(r, af) +
        (if Flat(r, af) == [] then 0 else Charges(ExceptAll(Flat(l, af), Flat(r, af)))) else 0
  }

  function CostOf(es: seq<Expr>, af: AddrFamily): nat { if es == [] then 0 else Cost(es[0], af) + CostOf(es[1..], af) }

  lemma {:induction false} CostCovers(e: Expr, af: AddrFamily)
    ensures Charges(Flat(e, af)) <= Cost(e, af)
    decreases e, 0
  {
    match e
    case Factor(_, _) =>
    case List(es) => CostOfCovers(es, af);
    case Refine(l, _, _) => CostCovers(l, af);
    case Except(l, _, _) => CostCovers(l, af);
  }

  lemma {:induction false} CostOfCovers(es: seq<Expr>, af: AddrFamily)
    ensures Charges(FlatList(es, af)) <= CostOf(es, af)
    decreases es, 0
  {
    if es != [] {
      CostCovers(es[0], af);
      CostOfCovers(es[1..], af);
      ChargesAppend(Flat(es[0], af), FlatList(es[1..], af));
    }
  }

  // ---- the terms a policy can have and what they weigh, from its factors alone ----

  /** As many terms as e can have: one for each peering of a factor, for each pair of REFINE, and for each pair and
      each left-hand term of EXCEPT. */
  function Terms(e: Expr, af: AddrFamily): nat {
    match e
    case Factor(peers, _) => |peers|
    case List(es) => TermsOf(es, af)
    case Refine(l, r, afis) => if InEffect(afis, af) then Terms(l, af) * Terms(r, af) else Terms(l, af)
    case Except(l, r, afis) =>
      if InEffect(afis, af) then Terms(l, af) * Terms(r, af) + Terms(l, af) else Terms(l, af)
  }

  function TermsOf(es: seq<Expr>, af: AddrFamily): nat {
    if es == [] then 0 else Terms(es[0], af) + TermsOf(es[1..], af)
  }

  /** What a pair of each left-hand and each right-hand term weighs: both filters and the AND of them. */
  function Pairs(tl: nat, wl: nat, tr: nat, wr: nat): nat { tr * wl + tl * wr + tl * tr }

  /** What the left-hand terms weigh less all right-hand filters: to each an AND, a NOT, an OR and those filters. */
  function Rests(tl: nat, wl: nat, tr: nat, wr: nat): nat { wl + if tr == 0 then 0 else tl * (wr + 3) }

  /** As much as those terms can weigh. */
  function Weight(e: Expr, af: AddrFamily): nat {
    match e
    case Factor(peers, f) => |peers| * NodesIn(f)
    case List(es) => WeightOf(es, af)
    case Refine(l, r, afis) =>
      if InEffect(afis, af) then Pairs(Terms(l, af), Weight(l, af), Terms(r, af), Weight(r, af)) else Weight(l, af)
    case Except(l, r, afis) =>
      if InEffect(afis, af) then
        Pairs(Terms(l, af), Weight(l, af), Terms(r, af), Weight(r, af)) +
        Rests(Terms(l, af), Weight(l, af), Terms(r, af), Weight(r, af))
      else Weight(l, af)
  }

  function WeightOf(es: seq<Expr>, af: AddrFamily): nat {
    if es == [] then 0 else Weight(es[0], af) + WeightOf(es[1..], af)
  }

  /** The most flattening e can cost: its terms, and those built on the way. */
  function Budget(e: Expr, af: AddrFamily): nat {
    match e
    case Factor(_, _) => Terms(e, af) + Weight(e, af)
    case List(es) => BudgetOf(es, af)
    case Refine(l, r, afis) =>
      Budget(l, af) + if InEffect(afis, af) then Budget(r, af) + Terms(e, af) + Weight(e, af) else 0
    case Except(l, r, afis) =>
      Budget(l, af) +
      if !InEffect(afis, af) then 0
      else Budget(r, af) + if Terms(r, af) == 0 then 0 else Terms(e, af) + Weight(e, af)
  }

  function BudgetOf(es: seq<Expr>, af: AddrFamily): nat {
    if es == [] then 0 else Budget(es[0], af) + BudgetOf(es[1..], af)
  }

  // ---- the weights of terms ----

  function Weights(ts: seq<Term>): nat { if ts == [] then 0 else ts[0].w + Weights(ts[1..]) }

  lemma {:induction false} ChargesAre(ts: seq<Term>)
    ensures Charges(ts) == Weights(ts) + |ts|
    decreases |ts|
  {
    if ts != [] { ChargesAre(ts[1..]); }
  }

  lemma {:induction false} WeightsAppend(a: seq<Term>, b: seq<Term>)
    ensures Weights(a + b) == Weights(a) + Weights(b)
    decreases |a|
  {
    if a == [] {
      assert a + b == b;
    } else {
      WeightsAppend(a[1..], b);
      assert (a + b)[0] == a[0] && (a + b)[1..] == a[1..] + b;
    }
  }

  /** Every term is from anyone by way of anyone, so that each pair meets. */
  predicate AllOpen(ts: seq<Term>) { forall i :: 0 <= i < |ts| ==> ts[i].peering.AnyPeering? && ts[i].via.None? }

  lemma {:induction false} RowWeighs(l: Term, right: seq<Term>)
    ensures |RefineRow(l, right)| <= |right|
    ensures Weights(RefineRow(l, right)) <= |right| * l.w + Weights(right) + |right|
    ensures AllOpen([l]) && AllOpen(right) ==>
              AllOpen(RefineRow(l, right)) && |RefineRow(l, right)| == |right| &&
              Weights(RefineRow(l, right)) == |right| * l.w + Weights(right) + |right|
    decreases |right|
  {
    if right != [] {
      var pair, rest := RefinePair(l, right[0]), RefineRow(l, right[1..]);
      RowWeighs(l, right[1..]);
      WeightsAppend(pair, rest);
      PairWeighs(l, right[0]);
      if AllOpen([l]) && AllOpen(right) {
        assert [l][0] == l && right[0].peering.AnyPeering?;
        assert forall i :: 0 <= i < |right[1..]| ==> right[1..][i] == right[i + 1];
      }
      assert |right| * l.w == (|right| - 1) * l.w + l.w;
    }
  }

  lemma {:induction false} PairWeighs(l: Term, r: Term)
    ensures |RefinePair(l, r)| <= 1 && Weights(RefinePair(l, r)) <= l.w + r.w + 1
    ensures AllOpen([l]) && r.peering.AnyPeering? && r.via.None? ==>
              AllOpen(RefinePair(l, r)) && |RefinePair(l, r)| == 1 && Weights(RefinePair(l, r)) == l.w + r.w + 1
  {
    var pair := RefinePair(l, r);
    assert [l][0] == l;
    if pair != [] { assert pair[1..] == []; }
  }

  lemma {:induction false} RefineWeighs(left: seq<Term>, right: seq<Term>)
    ensures |RefineAll(left, right)| <= |left| * |right|
    ensures Weights(RefineAll(left, right)) <= Pairs(|left|, Weights(left), |right|, Weights(right))
    decreases |left|
  {
    if left != [] {
      var row, rest := RefineRow(left[0], right), RefineAll(left[1..], right);
      RowWeighs(left[0], right);
      RefineWeighs(left[1..], right);
      WeightsAppend(row, rest);
      PairsNext(|left[1..]|, left[0].w, Weights(left[1..]), |right|, Weights(right));
    }
  }

  lemma {:induction false} RestOpen(ts: seq<Term>)
    requires AllOpen(ts) && ts != []
    ensures AllOpen([ts[0]]) && AllOpen(ts[1..])
  {
    assert [ts[0]][0] == ts[0];
    assert forall i :: 0 <= i < |ts[1..]| ==> ts[1..][i] == ts[i + 1];
  }

  lemma {:induction false} RefineOpen(left: seq<Term>, right: seq<Term>)
    requires AllOpen(left) && AllOpen(right)
    ensures AllOpen(RefineAll(left, right)) && |RefineAll(left, right)| == |left| * |right|
    ensures Weights(RefineAll(left, right)) == Pairs(|left|, Weights(left), |right|, Weights(right))
    decreases |left|
  {
    if left != [] {
      var row, rest := RefineRow(left[0], right), RefineAll(left[1..], right);
      RestOpen(left);
      RowWeighs(left[0], right);
      RefineOpen(left[1..], right);
      WeightsAppend(row, rest);
      PairsNext(|left[1..]|, left[0].w, Weights(left[1..]), |right|, Weights(right));
    }
  }

  /** One more left-hand term. */
  lemma {:induction false} PairsNext(tl: nat, w: nat, wl: nat, tr: nat, wr: nat)
    ensures Pairs(tl + 1, w + wl, tr, wr) == Pairs(tl, wl, tr, wr) + (tr * w + wr + tr) && (tl + 1) * tr == tl * tr + tr
  {
    assert tr * (w + wl) == tr * w + tr * wl && (tl + 1) * wr == tl * wr + wr;
  }

  lemma {:induction false} ExceptRowWeighs(l: Term, right: seq<Term>)
    ensures |ExceptRow(l, right)| == |right| && Weights(ExceptRow(l, right)) == |right| * l.w + Weights(right) + |right|
    ensures AllOpen(right) ==> AllOpen(ExceptRow(l, right))
    decreases |right|
  {
    if right != [] {
      ExceptRowWeighs(l, right[1..]);
      assert ExceptRow(l, right)[1..] == ExceptRow(l, right[1..]);
      assert |right| * l.w == (|right| - 1) * l.w + l.w;
      if AllOpen(right) { assert forall i :: 0 <= i < |right[1..]| ==> right[1..][i] == right[i + 1]; }
    }
  }

  lemma {:induction false} ExceptionsWeigh(left: seq<Term>, right: seq<Term>)
    ensures |Exceptions(left, right)| == |left| * |right|
    ensures Weights(Exceptions(left, right)) == Pairs(|left|, Weights(left), |right|, Weights(right))
    ensures AllOpen(right) ==> AllOpen(Exceptions(left, right))
    decreases |left|
  {
    if left != [] {
      var row, rest := ExceptRow(left[0], right), Exceptions(left[1..], right);
      ExceptRowWeighs(left[0], right);
      ExceptionsWeigh(left[1..], right);
      WeightsAppend(row, rest);
      PairsNext(|left[1..]|, left[0].w, Weights(left[1..]), |right|, Weights(right));
    }
  }

  lemma {:induction false} CoveredWeighs(right: seq<Term>)
    ensures CoveredWeight(right) <= Weights(right) && |Covered(right)| <= |right|
    ensures AllFiltered(right) ==> CoveredWeight(right) == Weights(right) && |Covered(right)| == |right|
    decreases |right|
  {
    if right != [] { CoveredWeighs(right[1..]); }
  }

  lemma {:induction false} RemaindersWeigh(left: seq<Term>, rest: Option<Test>, restW: nat)
    ensures |Remainders(left, rest, restW)| == |left|
    ensures Weights(Remainders(left, rest, restW)) == Weights(left) + if rest.None? then 0 else |left| * (restW + 1)
    ensures AllOpen(left) ==> AllOpen(Remainders(left, rest, restW))
    decreases |left|
  {
    if left != [] {
      RemaindersWeigh(left[1..], rest, restW);
      assert Remainders(left, rest, restW)[1..] == Remainders(left[1..], rest, restW);
      assert |left| * (restW + 1) == (|left| - 1) * (restW + 1) + (restW + 1);
      if AllOpen(left) { assert forall i :: 0 <= i < |left[1..]| ==> left[1..][i] == left[i + 1]; }
    }
  }

  lemma {:induction false} ExceptWeighs(left: seq<Term>, right: seq<Term>)
    requires right != []
    ensures var pairs, rests := Pairs(|left|, Weights(left), |right|, Weights(right)),
                                Rests(|left|, Weights(left), |right|, Weights(right));
            && Weights(ExceptAll(left, right)) <= pairs + rests
            && (AllFiltered(right) ==> Weights(ExceptAll(left, right)) == pairs + rests)
  {
    var rest, restW := OrFilters(Covered(right)), 2 + CoveredWeight(right);
    ExceptParts(left, right);
    CoveredWeighs(right);
    RestWeighs(left, rest, restW, right);
  }

  lemma {:induction false} ExceptParts(left: seq<Term>, right: seq<Term>)
    requires right != []
    ensures var rests := Remainders(left, OrFilters(Covered(right)), 2 + CoveredWeight(right));
            Weights(ExceptAll(left, right)) == Pairs(|left|, Weights(left), |right|, Weights(right)) + Weights(rests)
    ensures |ExceptAll(left, right)| == |left| * |right| + |left|
    ensures AllOpen(left) && AllOpen(right) ==> AllOpen(ExceptAll(left, right))
  {
    var rest, restW := OrFilters(Covered(right)), 2 + CoveredWeight(right);
    ExceptionsWeigh(left, right);
    RemaindersWeigh(left, rest, restW);
    WeightsAppend(Exceptions(left, right), Remainders(left, rest, restW));
  }

  lemma {:induction false} RestWeighs(left: seq<Term>, rest: Option<Test>, restW: nat, right: seq<Term>)
    requires right != [] && restW <= 2 + Weights(right)
    ensures Weights(Remainders(left, rest, restW)) <= Rests(|left|, Weights(left), |right|, Weights(right))
    ensures rest.Some? && restW == 2 + Weights(right) ==>
            Weights(Remainders(left, rest, restW)) == Rests(|left|, Weights(left), |right|, Weights(right))
  {
    RemaindersWeigh(left, rest, restW);
    MulMono(|left|, restW + 1, |left|, Weights(right) + 3);
  }

  lemma {:induction false} MulMono(a: nat, b: nat, c: nat, d: nat)
    requires a <= c && b <= d
    ensures a * b <= c * d
  {
    assert a * b <= a * d by { assert a * d == a * b + a * (d - b); }
    assert a * d <= c * d by { assert c * d == a * d + (c - a) * d; }
  }

  lemma {:induction false} PairsMono(tl: nat, wl: nat, tr: nat, wr: nat, tl': nat, wl': nat, tr': nat, wr': nat)
    requires tl <= tl' && wl <= wl' && tr <= tr' && wr <= wr'
    ensures Pairs(tl, wl, tr, wr) <= Pairs(tl', wl', tr', wr') && tl * tr <= tl' * tr'
    ensures Rests(tl, wl, tr, wr) <= Rests(tl', wl', tr', wr')
  {
    MulMono(tr, wl, tr', wl');
    MulMono(tl, wr, tl', wr');
    MulMono(tl, tr, tl', tr');
    MulMono(tl, wr + 3, tl', wr' + 3);
  }

  // ---- the bound ----

  lemma {:induction false} FactorWeighs(peers: seq<PeerActions>, f: Option<Test>, w: nat)
    ensures |FactorTerms(peers, f, w)| == |peers| && Weights(FactorTerms(peers, f, w)) == |peers| * w
    decreases |peers|
  {
    if peers != [] {
      FactorWeighs(peers[1..], f, w);
      assert FactorTerms(peers, f, w)[1..] == FactorTerms(peers[1..], f, w);
      assert |peers| * w == (|peers| - 1) * w + w;
    }
  }

  lemma {:induction false} SizeAtMost(f: Test, depth: nat)
    ensures 1 <= FilterSize(f, depth) <= Nodes(f)
    decreases f, 1
  {
    match f
    case And(ts) => SizeOfAtMost(ts, depth + 1);
    case Or(ts) => SizeOfAtMost(ts, depth + 1);
    case Not(g) => SizeAtMost(g, depth + 1);
    case Leaf(_) =>
  }

  lemma {:induction false} SizeOfAtMost(ts: seq<Test>, depth: nat)
    ensures FilterSizeOf(ts, depth) <= NodesOf(ts)
    decreases ts, 0
  {
    if ts != [] {
      SizeAtMost(ts[0], depth);
      SizeOfAtMost(ts[1..], depth);
    }
  }

  /** The terms of e are no more, and weigh no more, than its factors allow. */
  lemma {:induction false} FlatBounded(e: Expr, af: AddrFamily)
    ensures |Flat(e, af)| <= Terms(e, af) && Weights(Flat(e, af)) <= Weight(e, af)
    decreases e, 1
  {
    match e
    case Factor(peers, f) =>
      FactorWeighs(peers, f, SizeOf(f));
      if f.Some? { SizeAtMost(f.value, 0); }
      MulMono(|peers|, SizeOf(f), |peers|, NodesIn(f));
    case List(es) => FlatListBounded(es, af);
    case Refine(l, r, afis) =>
      FlatBounded(l, af);
      if InEffect(afis, af) {
        FlatBounded(r, af);
        RefineBounded(Flat(l, af), Flat(r, af), Terms(l, af), Weight(l, af), Terms(r, af), Weight(r, af));
      }
    case Except(l, r, afis) =>
      FlatBounded(l, af);
      if InEffect(afis, af) {
        FlatBounded(r, af);
        ExceptBounded(Flat(l, af), Flat(r, af), Terms(l, af), Weight(l, af), Terms(r, af), Weight(r, af));
      }
  }

  lemma {:induction false} FlatListBounded(es: seq<Expr>, af: AddrFamily)
    ensures |FlatList(es, af)| <= TermsOf(es, af) && Weights(FlatList(es, af)) <= WeightOf(es, af)
    decreases es, 0
  {
    if es != [] {
      FlatBounded(es[0], af);
      FlatListBounded(es[1..], af);
      WeightsAppend(Flat(es[0], af), FlatList(es[1..], af));
    }
  }

  lemma {:induction false} RefineBounded(left: seq<Term>, right: seq<Term>, tl: nat, wl: nat, tr: nat, wr: nat)
    requires |left| <= tl && Weights(left) <= wl && |right| <= tr && Weights(right) <= wr
    ensures |RefineAll(left, right)| <= tl * tr && Weights(RefineAll(left, right)) <= Pairs(tl, wl, tr, wr)
  {
    RefineWeighs(left, right);
    PairsMono(|left|, Weights(left), |right|, Weights(right), tl, wl, tr, wr);
  }

  lemma {:induction false} ExceptBounded(left: seq<Term>, right: seq<Term>, tl: nat, wl: nat, tr: nat, wr: nat)
    requires |left| <= tl && Weights(left) <= wl && |right| <= tr && Weights(right) <= wr
    ensures |ExceptAll(left, right)| <= tl * tr + tl
    ensures Weights(ExceptAll(left, right)) <= Pairs(tl, wl, tr, wr) + Rests(tl, wl, tr, wr)
  {
    PairsMono(|left|, Weights(left), |right|, Weights(right), tl, wl, tr, wr);
    if right != [] {
      ExceptParts(left, right);
      ExceptWeighs(left, right);
    }
  }

  /** What flattening e costs is within the budget its factors give. */
  lemma {:induction false} CostBounded(e: Expr, af: AddrFamily)
    ensures Cost(e, af) <= Budget(e, af)
    decreases e, 1
  {
    ChargesAre(Flat(e, af));
    FlatBounded(e, af);
    match e
    case Factor(_, _) =>
    case List(es) => CostOfBounded(es, af);
    case Refine(l, r, afis) =>
      CostBounded(l, af);
      if InEffect(afis, af) { CostBounded(r, af); }
    case Except(l, r, afis) =>
      CostBounded(l, af);
      if InEffect(afis, af) {
        CostBounded(r, af);
        FlatBounded(r, af);
      }
  }

  lemma {:induction false} CostOfBounded(es: seq<Expr>, af: AddrFamily)
    ensures CostOf(es, af) <= BudgetOf(es, af)
    decreases es, 0
  {
    if es != [] {
      CostBounded(es[0], af);
      CostOfBounded(es[1..], af);
    }
  }

  // ---- and is the cost, where every pair meets ----

  /** No filter nests deeper than the parser allows. */
  predicate Shallow(e: Expr) {
    match e
    case Factor(_, f) => f.Some? ==> Levels(f.value) <= MAX_FLATTEN_DEPTH
    case List(es) => AllShallow(es)
    case Refine(l, r, _) => Shallow(l) && Shallow(r)
    case Except(l, r, _) => Shallow(l) && Shallow(r)
  }

  predicate AllShallow(es: seq<Expr>) { es == [] || (Shallow(es[0]) && AllShallow(es[1..])) }

  /** Every peering is AS-ANY, by way of anyone. */
  predicate Open(e: Expr) {
    match e
    case Factor(peers, _) => forall i :: 0 <= i < |peers| ==> peers[i].peering.AnyPeering? && peers[i].via.None?
    case List(es) => AllOpenIn(es)
    case Refine(l, r, _) => Open(l) && Open(r)
    case Except(l, r, _) => Open(l) && Open(r)
  }

  predicate AllOpenIn(es: seq<Expr>) { es == [] || (Open(es[0]) && AllOpenIn(es[1..])) }

  lemma {:induction false} FactorOpen(peers: seq<PeerActions>, f: Option<Test>, w: nat)
    requires Open(Factor(peers, f))
    ensures AllOpen(FactorTerms(peers, f, w))
    decreases |peers|
  {
    if peers != [] {
      assert forall i :: 0 <= i < |peers[1..]| ==> peers[1..][i] == peers[i + 1];
      FactorOpen(peers[1..], f, w);
      var ts := FactorTerms(peers, f, w);
      assert forall i :: 0 < i < |ts| ==> ts[i] == FactorTerms(peers[1..], f, w)[i - 1];
      assert peers[0].peering.AnyPeering?;
    }
  }

  lemma {:induction false} FlatExact(e: Expr, af: AddrFamily)
    requires Open(e) && Shallow(e) && Complete(e)
    ensures AllOpen(Flat(e, af)) && |Flat(e, af)| == Terms(e, af) && Weights(Flat(e, af)) == Weight(e, af)
    decreases e, 1
  {
    match e
    case Factor(peers, f) =>
      FilterSizeExact(f.value, 0);
      FactorWeighs(peers, f, SizeOf(f));
      FactorOpen(peers, f, SizeOf(f));
    case List(es) => FlatListExact(es, af);
    case Refine(l, r, afis) =>
      FlatExact(l, af);
      FlatExact(r, af);
      RefineOpen(Flat(l, af), Flat(r, af));
    case Except(l, r, afis) =>
      FlatExact(l, af);
      FlatExact(r, af);
      Filtered(r, af);
      if Flat(r, af) != [] {
        ExceptParts(Flat(l, af), Flat(r, af));
        ExceptWeighs(Flat(l, af), Flat(r, af));
      }
  }

  /** Every term of a policy whose factors all have filters has one. */
  lemma {:induction false} Filtered(e: Expr, af: AddrFamily)
    requires Complete(e)
    ensures AllFiltered(Flat(e, af))
  {
    FlatAccepts(e, af, "", "", _ => false);
  }

  lemma {:induction false} FlatListExact(es: seq<Expr>, af: AddrFamily)
    requires AllOpenIn(es) && AllShallow(es) && AllComplete(es)
    ensures AllOpen(FlatList(es, af)) && |FlatList(es, af)| == TermsOf(es, af)
    ensures Weights(FlatList(es, af)) == WeightOf(es, af)
    decreases es, 0
  {
    if es != [] {
      FlatExact(es[0], af);
      FlatListExact(es[1..], af);
      WeightsAppend(Flat(es[0], af), FlatList(es[1..], af));
    }
  }

  lemma {:induction false} CostExact(e: Expr, af: AddrFamily)
    requires Open(e) && Shallow(e) && Complete(e)
    ensures Cost(e, af) == Budget(e, af)
    decreases e, 1
  {
    ChargesAre(Flat(e, af));
    FlatExact(e, af);
    match e
    case Factor(_, _) =>
    case List(es) => CostOfExact(es, af);
    case Refine(l, r, afis) =>
      CostExact(l, af);
      CostExact(r, af);
    case Except(l, r, afis) =>
      CostExact(l, af);
      CostExact(r, af);
      FlatExact(r, af);
  }

  lemma {:induction false} CostOfExact(es: seq<Expr>, af: AddrFamily)
    requires AllOpenIn(es) && AllShallow(es) && AllComplete(es)
    ensures CostOf(es, af) == BudgetOf(es, af)
    decreases es, 0
  {
    if es != [] {
      CostExact(es[0], af);
      CostOfExact(es[1..], af);
    }
  }
}
