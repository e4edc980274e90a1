/** The walks that decide inclusion without building a trie (types/prefixspace_ops.go:36-163).

    Go compares nodes by address before looking inside; an address test is any relation under which
    only equal nodes are the same, and every result below holds for each such relation. */
module TrieSubsets {
  import opened Tries

  type Sameness = (Node, Node) -> bool

  ghost predicate Sound(same: Sameness) { forall x, y :: same(x, y) ==> x == y }

  /** The lengths any node of bs holds. */
  function MasksOf(bs: seq<Node>): (m: Mask)
    ensures forall i :: 0 <= i < |bs| ==> MaskOf(bs[i]) <= m
  {
    if bs == [] then {} else MasksOf(bs[..|bs| - 1]) + MaskOf(bs[|bs| - 1])
  }

  lemma MasksOfAt(bs: seq<Node>, l: int) returns (i: nat)
    requires l in MasksOf(bs)
    ensures i < |bs| && l in MaskOf(bs[i])
  {
    if l in MaskOf(bs[|bs| - 1]) {
      i := |bs| - 1;
    } else {
      i := MasksOfAt(bs[..|bs| - 1], l);
    }
  }

  predicate AllLeaves(bs: seq<Node>) { forall i :: 0 <= i < |bs| ==> Leaf(bs[i]) }

  predicate AllNodes(bs: seq<Node>) { forall i :: 0 <= i < |bs| ==> bs[i].Node? }

  /** The children on side c of the nodes bs, absent ones dropped. */
  function Kids(bs: seq<Node>, c: bool): (ks: seq<Node>)
    ensures AllNodes(ks)
  {
    if bs == [] then []
    else
      var k := Kid(bs[|bs| - 1], c);
      Kids(bs[..|bs| - 1], c) + if k.Node? then [k] else []
  }

  predicate AnyHolds(bs: seq<Node>, d: nat, s: seq<bool>) {
    exists i :: 0 <= i < |bs| && Holds(bs[i], d, s)
  }

  lemma {:induction false} KidsHold(bs: seq<Node>, c: bool, d: nat, t: seq<bool>)
    ensures AnyHolds(Kids(bs, c), d, t) <==> exists i :: 0 <= i < |bs| && Holds(Kid(bs[i], c), d, t)
  {
    if bs != [] {
      var init, last := bs[..|bs| - 1], bs[|bs| - 1];
      KidsHold(init, c, d, t);
      var ks := Kids(init, c);
      if AnyHolds(ks, d, t) {
        var j :| 0 <= j < |ks| && Holds(ks[j], d, t);
        assert Holds(Kids(bs, c)[j], d, t);
        var i :| 0 <= i < |init| && Holds(Kid(init[i], c), d, t);
        assert Holds(Kid(bs[i], c), d, t);
      }
      if Holds(Kid(last, c), d, t) {
        assert Holds(Kids(bs, c)[|ks|], d, t);
      }
      assert forall i :: 0 <= i < |bs| ==> bs[i] == if i < |init| then init[i] else last;
    }
  }

  /** Nothing a can hold below here is missing on the other side. */
  predicate CoveredBy(a: Node, fa: Mask, fb: Mask, d: nat, width: nat) {
    Window(d, width) <= fb || (Leaf(a) && fa <= fb)
  }

  /** A node of bs is found to be a. */
  predicate Listed(a: Node, bs: seq<Node>, same: Sameness) { exists i :: 0 <= i < |bs| && same(bs[i], a) }

  predicate SubsetUnion(a: Node, bs: seq<Node>, d: nat, width: nat, inA: Mask, inB: Mask, same: Sameness)
    requires d <= width
    decreases width - d
  {
    if inA == {} && (a.Nil? || Listed(a, bs, same)) then true
    else if inA == {} && bs == [] && inB == {} then false
    else
      var fa, fb := From(inA + MaskOf(a), d), From(inB + MasksOf(bs), d);
      if CoveredBy(a, fa, fb, d, width) then true
      else if Leaf(a) && AllLeaves(bs) then fa <= fb
      else if d in fa - fb then false
      else if d < width then
        var ia, ib := From(fa, d + 1), From(fb, d + 1);
        SubsetUnion(Kid(a, false), Kids(bs, false), d + 1, width, ia, ib, same) &&
        SubsetUnion(Kid(a, true), Kids(bs, true), d + 1, width, ia, ib, same)
      else true
  }

  /** The two-trie walk is the same walk with at most one node on the right. */
  predicate Subset(a: Node, b: Node, d: nat, width: nat, inA: Mask, inB: Mask, same: Sameness)
    requires d <= width
    decreases width - d
  {
    if inA == {} && (a.Nil? || (b.Node? && same(b, a))) then true
    else if inA == {} && b.Nil? && inB == {} then false
    else
      var fa, fb := From(inA + MaskOf(a), d), From(inB + MaskOf(b), d);
      if CoveredBy(a, fa, fb, d, width) then true
      else if Leaf(a) && Leaf(b) then fa <= fb
      else if d in fa - fb then false
      else if d < width then
        var ia, ib := From(fa, d + 1), From(fb, d + 1);
        Subset(Kid(a, false), Kid(b, false), d + 1, width, ia, ib, same) &&
        Subset(Kid(a, true), Kid(b, true), d + 1, width, ia, ib, same)
      else true
  }

  function ListOf(b: Node): seq<Node> { if b.Nil? then [] else [b] }

  lemma {:induction false} SubsetIsSubsetUnion(a: Node, b: Node, d: nat, width: nat, inA: Mask, inB: Mask,
                                               same: Sameness)
    requires d <= width
    ensures Subset(a, b, d, width, inA, inB, same) == SubsetUnion(a, ListOf(b), d, width, inA, inB, same)
    decreases width - d
  {
    var fa, fb := From(inA + MaskOf(a), d), From(inB + MaskOf(b), d);
    assert MasksOf(ListOf(b)) == MaskOf(b) by {
      if b.Node? { assert ListOf(b)[..0] == []; }
    }
    assert AllLeaves(ListOf(b)) == Leaf(b) by {
      if b.Node? { assert ListOf(b)[0] == b; }
    }
    assert (b.Node? && same(b, a)) == Listed(a, ListOf(b), same) by {
      if b.Node? { assert ListOf(b)[0] == b; }
    }
    if d < width {
      var ia, ib := From(fa, d + 1), From(fb, d + 1);
      forall c: bool ensures Kids(ListOf(b), c) == ListOf(Kid(b, c)) {
        if b.Node? { assert ListOf(b)[..0] == []; }
      }
      SubsetIsSubsetUnion(Kid(a, false), Kid(b, false), d + 1, width, ia, ib, same);
      SubsetIsSubsetUnion(Kid(a, true), Kid(b, true), d + 1, width, ia, ib, same);
    }
  }

  predicate UnionHoldsWith(bs: seq<Node>, d: nat, inB: Mask, s: seq<bool>) {
    d + |s| in inB || AnyHolds(bs, d, s)
  }

  /** Every prefix of a, or inherited by it, is in one of bs, or inherited there. */
  ghost predicate Included(a: Node, bs: seq<Node>, d: nat, width: nat, inA: Mask, inB: Mask) {
    forall s: seq<bool> :: d + |s| <= width && HoldsWith(a, d, inA, s) ==> UnionHoldsWith(bs, d, inB, s)
  }

  lemma UnionHoldsMask(bs: seq<Node>, d: nat, inB: Mask, s: seq<bool>)
    requires AllNodes(bs) && d + |s| in inB + MasksOf(bs)
    ensures UnionHoldsWith(bs, d, inB, s)
  {
    if d + |s| !in inB {
      var i := MasksOfAt(bs, d + |s|);
      assert Holds(bs[i], d, s);
    }
  }

  lemma AnyHoldsStep(bs: seq<Node>, d: nat, s: seq<bool>)
    requires s != [] && d + |s| !in MasksOf(bs)
    ensures AnyHolds(bs, d, s) <==> AnyHolds(Kids(bs, s[0]), d + 1, s[1..])
  {
    KidsHold(bs, s[0], d + 1, s[1..]);
    forall i | 0 <= i < |bs| ensures Holds(bs[i], d, s) <==> Holds(Kid(bs[i], s[0]), d + 1, s[1..]) {
      assert MaskOf(bs[i]) <= MasksOf(bs);
    }
  }

  lemma UnionStep(bs: seq<Node>, d: nat, inB: Mask, s: seq<bool>)
    requires AllNodes(bs)
    ensures s == [] ==> (UnionHoldsWith(bs, d, inB, s) <==> d in From(inB + MasksOf(bs), d))
    ensures s != [] ==> (UnionHoldsWith(bs, d, inB, s) <==>
                         UnionHoldsWith(Kids(bs, s[0]), d + 1, From(From(inB + MasksOf(bs), d), d + 1), s[1..]))
  {
    if s == [] {
      UnionHere(bs, d, inB);
    } else {
      UnionDeeper(bs, d, inB, From(From(inB + MasksOf(bs), d), d + 1), s);
    }
  }

  lemma UnionDeeper(bs: seq<Node>, d: nat, inB: Mask, deeper: Mask, s: seq<bool>)
    requires AllNodes(bs) && s != [] && (d + |s| in deeper <==> d + |s| in inB + MasksOf(bs))
    ensures UnionHoldsWith(bs, d, inB, s) <==> UnionHoldsWith(Kids(bs, s[0]), d + 1, deeper, s[1..])
  {
    assert d + |s| == d + 1 + |s[1..]|;
    if d + |s| in deeper {
      UnionHoldsMask(bs, d, inB, s);
    } else {
      AnyHoldsStep(bs, d, s);
    }
  }

  lemma UnionHere(bs: seq<Node>, d: nat, inB: Mask)
    requires AllNodes(bs)
    ensures UnionHoldsWith(bs, d, inB, []) <==> d in From(inB + MasksOf(bs), d)
  {
    if d in inB + MasksOf(bs) {
      UnionHoldsMask(bs, d, inB, []);
    } else {
      forall i | 0 <= i < |bs| ensures !Holds(bs[i], d, []) {
        assert MaskOf(bs[i]) <= MasksOf(bs);
      }
    }
  }

  lemma MissingLength(a: Node, bs: seq<Node>, d: nat, width: nat, inA: Mask, inB: Mask, l: int)
    requires d <= l <= width && AllNodes(bs)
    requires l in inA + MaskOf(a) && l !in inB + MasksOf(bs) && (l == d || AllLeaves(bs))
    ensures !Included(a, bs, d, width, inA, inB)
  {
    var s: seq<bool> := seq(l - d, _ => false);
    assert HoldsWith(a, d, inA, s);
    assert !UnionHoldsWith(bs, d, inB, s) by {
      if AnyHolds(bs, d, s) {
        var i :| 0 <= i < |bs| && Holds(bs[i], d, s);
        if AllLeaves(bs) { LeafHolds(bs[i], d, s); }
      }
    }
  }

  lemma CoveredIncluded(a: Node, bs: seq<Node>, d: nat, width: nat, inA: Mask, inB: Mask)
    requires AllNodes(bs)
    requires CoveredBy(a, From(inA + MaskOf(a), d), From(inB + MasksOf(bs), d), d, width)
    ensures Included(a, bs, d, width, inA, inB)
  {
    forall s: seq<bool> | d + |s| <= width && HoldsWith(a, d, inA, s) ensures UnionHoldsWith(bs, d, inB, s) {
      if Window(d, width) <= From(inB + MasksOf(bs), d) {
        assert d + |s| in Window(d, width);
      } else {
        LeafHolds(a, d, s);
        assert d + |s| in From(inA + MaskOf(a), d);
      }
      UnionHoldsMask(bs, d, inB, s);
    }
  }

  lemma KidsDecide(a: Node, bs: seq<Node>, d: nat, width: nat, inA: Mask, inB: Mask)
    requires AllNodes(bs) && d < width
    requires d !in From(inA + MaskOf(a), d) - From(inB + MasksOf(bs), d)
    ensures var ia, ib := From(From(inA + MaskOf(a), d), d + 1), From(From(inB + MasksOf(bs), d), d + 1);
            Included(a, bs, d, width, inA, inB) <==>
            (Included(Kid(a, false), Kids(bs, false), d + 1, width, ia, ib) &&
             Included(Kid(a, true), Kids(bs, true), d + 1, width, ia, ib))
  {
    var ia, ib := From(From(inA + MaskOf(a), d), d + 1), From(From(inB + MasksOf(bs), d), d + 1);
    forall s: seq<bool> | d + |s| <= width && HoldsWith(a, d, inA, s)
                          && Included(Kid(a, false), Kids(bs, false), d + 1, width, ia, ib)
                          && Included(Kid(a, true), Kids(bs, true), d + 1, width, ia, ib)
      ensures UnionHoldsWith(bs, d, inB, s)
    {
      HoldsWithStep(a, d, inA, s);
      UnionStep(bs, d, inB, s);
    }
    forall c: bool, t: seq<bool> | Included(a, bs, d, width, inA, inB)
                                   && d + 1 + |t| <= width && HoldsWith(Kid(a, c), d + 1, ia, t)
      ensures UnionHoldsWith(Kids(bs, c), d + 1, ib, t)
    {
      var s := [c] + t;
      assert s[1..] == t;
      HoldsWithStep(a, d, inA, s);
      UnionStep(bs, d, inB, s);
    }
  }

  /** Every early exit included, the walk decides inclusion in the union exactly. */
  lemma {:induction false} SubsetUnionExact(a: Node, bs: seq<Node>, d: nat, width: nat, inA: Mask, inB: Mask,
                                            aboveA: Mask, same: Sameness)
    requires d <= width && Within(inA, width) && AllNodes(bs) && Sound(same)
    requires Canonical(a, d, width, aboveA)
    ensures SubsetUnion(a, bs, d, width, inA, inB, same) <==> Included(a, bs, d, width, inA, inB)
    decreases width - d, 1
  {
    if inA == {} && (a.Nil? || Listed(a, bs, same)) {
      FoundIncluded(a, bs, d, width, inB, same);
    } else if inA == {} && bs == [] && inB == {} {
      NotInNothing(a, d, width, aboveA);
    } else {
      LengthsExact(a, bs, d, width, inA, inB, aboveA, same);
    }
  }

  /** The walk past its two early answers. */
  lemma {:induction false} LengthsExact(a: Node, bs: seq<Node>, d: nat, width: nat, inA: Mask, inB: Mask, aboveA: Mask,
                                        same: Sameness)
    requires d <= width && Within(inA, width) && AllNodes(bs) && Sound(same)
    requires Canonical(a, d, width, aboveA)
    requires inA == {} ==> a.Node? && !Listed(a, bs, same) && (bs != [] || inB != {})
    ensures SubsetUnion(a, bs, d, width, inA, inB, same) <==> Included(a, bs, d, width, inA, inB)
    decreases width - d, 0
  {
    var fa, fb := From(inA + MaskOf(a), d), From(inB + MasksOf(bs), d);
    if Descends(a, bs, fa, fb, d, width) {
      var ia, ib := From(fa, d + 1), From(fb, d + 1);
      KidsDecide(a, bs, d, width, inA, inB);
      SubsetUnionExact(Kid(a, false), Kids(bs, false), d + 1, width, ia, ib, aboveA + MaskOf(a), same);
      SubsetUnionExact(Kid(a, true), Kids(bs, true), d + 1, width, ia, ib, aboveA + MaskOf(a), same);
    } else {
      LengthsDecide(a, bs, d, width, inA, inB);
    }
  }

  predicate Descends(a: Node, bs: seq<Node>, fa: Mask, fb: Mask, d: nat, width: nat) {
    !CoveredBy(a, fa, fb, d, width) && !(Leaf(a) && AllLeaves(bs)) && d !in fa - fb && d < width
  }

  lemma {:induction false} LengthsDecide(a: Node, bs: seq<Node>, d: nat, width: nat, inA: Mask, inB: Mask)
    requires d <= width && Within(inA + MaskOf(a), width) && AllNodes(bs)
    requires !Descends(a, bs, From(inA + MaskOf(a), d), From(inB + MasksOf(bs), d), d, width)
    ensures var fa, fb := From(inA + MaskOf(a), d), From(inB + MasksOf(bs), d);
            Included(a, bs, d, width, inA, inB) <==>
            CoveredBy(a, fa, fb, d, width) || (if Leaf(a) && AllLeaves(bs) then fa <= fb else d !in fa - fb)
  {
    var fa, fb := From(inA + MaskOf(a), d), From(inB + MasksOf(bs), d);
    if CoveredBy(a, fa, fb, d, width) {
      CoveredIncluded(a, bs, d, width, inA, inB);
    } else if Leaf(a) && AllLeaves(bs) {
      var l := PickMissing(fa, fb);
      MissingLength(a, bs, d, width, inA, inB, l);
    } else if d in fa - fb {
      MissingLength(a, bs, d, width, inA, inB, d);
    } else {
      AtFullWidth(a, bs, d, inA, inB);
    }
  }

  lemma {:induction false} FoundIncluded(a: Node, bs: seq<Node>, d: nat, width: nat, inB: Mask, same: Sameness)
    requires Sound(same) && (a.Nil? || Listed(a, bs, same))
    ensures Included(a, bs, d, width, {}, inB)
  {
  }

  lemma {:induction false} NotInNothing(a: Node, d: nat, width: nat, aboveA: Mask)
    requires a.Node? && d <= width && Canonical(a, d, width, aboveA)
    ensures !Included(a, [], d, width, {}, {})
  {
    var s := Inhabited(a, d, width, aboveA);
    assert HoldsWith(a, d, {}, s) && !UnionHoldsWith([], d, {}, s);
  }

  lemma {:induction false} AtFullWidth(a: Node, bs: seq<Node>, d: nat, inA: Mask, inB: Mask)
    requires AllNodes(bs) && d !in From(inA + MaskOf(a), d) - From(inB + MasksOf(bs), d)
    ensures Included(a, bs, d, d, inA, inB)
  {
    forall s: seq<bool> | d + |s| <= d && HoldsWith(a, d, inA, s) ensures UnionHoldsWith(bs, d, inB, s) {
      assert s == [];
      HoldsWithStep(a, d, inA, s);
      UnionStep(bs, d, inB, s);
    }
  }

  /** Subset is difference being empty, at every depth and under any inherited lengths. */
  lemma SubsetIsEmptyMinus(a: Node, b: Node, d: nat, width: nat, inA: Mask, inB: Mask, aboveA: Mask, aboveB: Mask,
                           same: Sameness)
    requires d <= width && Within(inA, width) && Within(inB, width) && Sound(same)
    requires Canonical(a, d, width, aboveA) && Canonical(b, d, width, aboveB)
    ensures Subset(a, b, d, width, inA, inB, same) <==> Merge(OpMinus, a, b, d, width, inA, inB).Nil?
  {
    var minus := Merge(OpMinus, a, b, d, width, inA, inB);
    SubsetIsSubsetUnion(a, b, d, width, inA, inB, same);
    SubsetUnionExact(a, ListOf(b), d, width, inA, inB, aboveA, same);
    MergeCanonical(OpMinus, a, b, d, width, inA, inB, aboveA, aboveB);
    forall s: seq<bool> | d + |s| <= width
      ensures Holds(minus, d, s) <==> HoldsWith(a, d, inA, s) && !UnionHoldsWith(ListOf(b), d, inB, s)
    {
      MergeHolds(OpMinus, a, b, d, width, inA, inB, s);
      assert AnyHolds(ListOf(b), d, s) <==> Holds(b, d, s) by {
        if b.Node? { assert ListOf(b)[0] == b; }
      }
    }
    if minus.Node? {
      var s := Inhabited(minus, d, width, {});
      assert !Included(a, ListOf(b), d, width, inA, inB);
    }
  }

  /** The union of a list of tries, folded. */
  function FoldUnion(bs: seq<Node>, width: nat): (u: Node) {
    if bs == [] then Nil else Merge(OpUnion, FoldUnion(bs[..|bs| - 1], width), bs[|bs| - 1], 0, width, {}, {})
  }

  lemma {:induction false} FoldUnionHolds(bs: seq<Node>, width: nat)
    requires forall i :: 0 <= i < |bs| ==> Canonical(bs[i], 0, width, {})
    ensures Canonical(FoldUnion(bs, width), 0, width, {})
    ensures forall s: seq<bool> :: |s| <= width ==> (Holds(FoldUnion(bs, width), 0, s) <==> AnyHolds(bs, 0, s))
  {
    if bs != [] {
      var init, last := bs[..|bs| - 1], bs[|bs| - 1];
      var u := FoldUnion(init, width);
      FoldUnionHolds(init, width);
      MergeCanonical(OpUnion, u, last, 0, width, {}, {}, {}, {});
      forall s: seq<bool> | |s| <= width ensures Holds(FoldUnion(bs, width), 0, s) <==> AnyHolds(bs, 0, s) {
        MergeHolds(OpUnion, u, last, 0, width, {}, {}, s);
        assert AnyHolds(bs, 0, s) <==> (AnyHolds(init, 0, s) || Holds(last, 0, s)) by {
          if AnyHolds(init, 0, s) {
            var i :| 0 <= i < |init| && Holds(init[i], 0, s);
            assert Holds(bs[i], 0, s);
          }
          assert forall i :: 0 <= i < |bs| ==> bs[i] == if i < |init| then init[i] else last;
        }
      }
    }
  }

  lemma SubsetUnionIsFoldedSubset(a: Node, bs: seq<Node>, width: nat, same: Sameness)
    requires AllNodes(bs) && Sound(same) && Canonical(a, 0, width, {})
    requires forall i :: 0 <= i < |bs| ==> Canonical(bs[i], 0, width, {})
    ensures SubsetUnion(a, bs, 0, width, {}, {}, same) <==> Subset(a, FoldUnion(bs, width), 0, width, {}, {}, same)
  {
    var u := FoldUnion(bs, width);
    FoldUnionHolds(bs, width);
    SubsetUnionExact(a, bs, 0, width, {}, {}, {}, same);
    SubsetIsSubsetUnion(a, u, 0, width, {}, {}, same);
    SubsetUnionExact(a, ListOf(u), 0, width, {}, {}, {}, same);
    forall s: seq<bool> | |s| <= width ensures UnionHoldsWith(bs, 0, {}, s) <==> UnionHoldsWith(ListOf(u), 0, {}, s) {
      assert Holds(u, 0, s) <==> AnyHolds(ListOf(u), 0, s) by {
        if u.Node? { assert ListOf(u)[0] == u; }
      }
    }
  }

  // ---- the shared work list ----

  /** A growable list: an append writes in place while there is room and moves to a new array
      otherwise, as a Go slice does. */
  class WorkList {
    var data: array<Node>
    var len: nat

    ghost predicate Valid() reads this { len <= data.Length }

    constructor (capacity: nat)
      ensures Valid() && fresh(data) && len == 0
    {
      data := new Node[capacity](_ => Nil);
      len := 0;
    }

    method Append(k: Node)
      requires Valid()
      modifies this, data
      ensures Valid() && len == old(len) + 1 && (data == old(data) || fresh(data))
      ensures data[..len] == old(data[..len]) + [k]
      ensures old(data)[..old(len)] == old(data[..len])
    {
      if len == data.Length {
        var grown := new Node[2 * data.Length + 1](_ => Nil);
        for i := 0 to len
          invariant len == old(len) && data == old(data) && data[..] == old(data[..])
          invariant grown[..i] == data[..i]
        {
          grown[i] := data[i];
        }
        assert grown[..len] == data[..len];
        data := grown;
      }
      data[len] := k;
      len := len + 1;
    }
  }

  /** subsetUnion with its shared work list. bs is the window [lo, hi) of arr, which is the list's own
      array or one it has moved away from; the walk appends only past what is in the list, so no
      window a caller still reads is overwritten, and leaves the list as it found it. */
  method SubsetUnionWalk(a: Node, arr: array<Node>, lo: nat, hi: nat, d: nat, width: nat, inA: Mask, inB: Mask,
                         same: Sameness, work: WorkList) returns (ok: bool)
    requires d <= width && work.Valid() && lo <= hi <= arr.Length
    requires arr == work.data ==> hi <= work.len
    modifies work, work.data
    ensures ok == SubsetUnion(a, old(arr[lo..hi]), d, width, inA, inB, same)
    ensures work.Valid() && work.len == old(work.len) && (work.data == old(work.data) || fresh(work.data))
    ensures work.data[..work.len] == old(work.data[..work.len])
    ensures old(work.data)[..old(work.len)] == old(work.data[..work.len])
    decreases width - d
  {
    ghost var bs := arr[lo..hi];
    if inA == {} {
      var found := SearchSame(a, arr, lo, hi, same);
      if a.Nil? || found { return true; }
      if lo == hi && inB == {} { return false; }
    }
    var masks, leaves := Scan(arr, lo, hi);
    var fa, fb := From(inA + MaskOf(a), d), From(inB + masks, d);
    if CoveredBy(a, fa, fb, d, width) { return true; }
    if Leaf(a) && leaves { return fa <= fb; }
    if d in fa - fb { return false; }
    if d < width {
      var ia, ib := From(fa, d + 1), From(fb, d + 1);
      ok := KidWalk(false, a, arr, lo, hi, d, width, ia, ib, same, work);
      if ok {
        ok := KidWalk(true, a, arr, lo, hi, d, width, ia, ib, same, work);
      }
      return;
    }
    return true;
  }

  /** One child's turn: its nodes are appended, walked and dropped. */
  method KidWalk(c: bool, a: Node, arr: array<Node>, lo: nat, hi: nat, d: nat, width: nat, ia: Mask, ib: Mask,
                 same: Sameness, work: WorkList) returns (ok: bool)
    requires d < width && work.Valid() && lo <= hi <= arr.Length
    requires arr == work.data ==> hi <= work.len
    modifies work, work.data
    ensures ok == SubsetUnion(Kid(a, c), Kids(old(arr[lo..hi]), c), d + 1, width, ia, ib, same)
    ensures work.Valid() && work.len == old(work.len) && (work.data == old(work.data) || fresh(work.data))
    ensures work.data[..work.len] == old(work.data[..work.len])
    ensures old(work.data)[..old(work.len)] == old(work.data[..work.len])
    ensures arr[lo..hi] == old(arr[lo..hi])
    decreases width - d, 0
  {
    var start := work.len;
    PushKids(c, arr, lo, hi, work);
    var end := work.len;
    var window := work.data;
    assert window[start..end] == Kids(old(arr[lo..hi]), c) by { assert window[start..end] == window[..end][start..]; }
    ok := SubsetUnionWalk(Kid(a, c), window, start, end, d + 1, width, ia, ib, same, work);
    assert work.data[..start] == work.data[..end][..start];
    assert window[..start] == window[..end][..start];
    work.len := start;
  }

  method PushKids(c: bool, arr: array<Node>, lo: nat, hi: nat, work: WorkList)
    requires work.Valid() && lo <= hi <= arr.Length
    requires arr == work.data ==> hi <= work.len
    modifies work, work.data
    ensures work.Valid() && (work.data == old(work.data) || fresh(work.data))
    ensures work.data[..work.len] == old(work.data[..work.len]) + Kids(old(arr[lo..hi]), c)
    ensures old(work.data)[..old(work.len)] == old(work.data[..work.len])
    ensures arr[lo..hi] == old(arr[lo..hi])
  {
    ghost var bs := arr[lo..hi];
    ghost var base := work.data[..work.len];
    for i := lo to hi
      invariant work.Valid() && (work.data == old(work.data) || fresh(work.data))
      invariant old(work.len) <= work.len && work.data[..work.len] == base + Kids(bs[..i - lo], c)
      invariant old(work.data)[..old(work.len)] == base
      invariant arr[lo..hi] == bs
    {
      assert arr[i] == bs[i - lo];
      assert bs[..i + 1 - lo][..i - lo] == bs[..i - lo];
      var k := Kid(arr[i], c);
      if k.Node? {
        ghost var had, at := work.len, work.data;
        work.Append(k);
        assert at == old(work.data) ==> at[..old(work.len)] == at[..had][..old(work.len)];
        if arr == old(work.data) { SliceOf(arr, old(work.len), base, lo, hi); }
      }
    }
    assert bs[..hi - lo] == bs;
  }

  lemma SliceOf(arr: array<Node>, n: nat, base: seq<Node>, lo: nat, hi: nat)
    requires n <= arr.Length && arr[..n] == base && lo <= hi <= n
    ensures arr[lo..hi] == base[lo..hi]
  {
    forall i | lo <= i < hi ensures arr[i] == base[i] { assert arr[i] == arr[..n][i]; }
  }

  method Scan(arr: array<Node>, lo: nat, hi: nat) returns (masks: Mask, leaves: bool)
    requires lo <= hi <= arr.Length
    ensures masks == MasksOf(arr[lo..hi]) && leaves == AllLeaves(arr[lo..hi])
  {
    masks, leaves := {}, true;
    for i := lo to hi
      invariant masks == MasksOf(arr[lo..i]) && leaves == AllLeaves(arr[lo..i])
    {
      assert arr[lo..i + 1][..i - lo] == arr[lo..i] && arr[lo..i + 1][i - lo] == arr[i];
      masks := masks + MaskOf(arr[i]);
      leaves := leaves && Leaf(arr[i]);
    }
  }

  method SearchSame(a: Node, arr: array<Node>, lo: nat, hi: nat, same: Sameness) returns (found: bool)
    requires lo <= hi <= arr.Length
    ensures found <==> Listed(a, arr[lo..hi], same)
  {
    found := false;
    for i := lo to hi
      invariant found <==> exists j :: 0 <= j < i - lo && same(arr[lo..hi][j], a)
    {
      assert arr[lo..hi][i - lo] == arr[i];
      found := found || same(arr[i], a);
    }
  }
}
