/** Canonical binary tries of prefix lengths: the set algebra of types/prefixspace.go and
    types/prefixspace_ops.go, for one address family.

    A node sits at a depth; a suffix s below it names the prefix of length depth + |s| reached by
    following s. A mask is the set of lengths a node holds for everything under it. */
module Tries {
  import opened Collections

  datatype Node = Nil | Node(mask: set<int>, zero: Node, one: Node)

  type Mask = set<int>

  function Kid(n: Node, b: bool): Node {
    if n.Nil? then Nil else if b then n.one else n.zero
  }

  function MaskOf(n: Node): Mask { if n.Nil? then {} else n.mask }

  predicate Leaf(n: Node) { n.Nil? || (n.zero.Nil? && n.one.Nil?) }

  /** The lengths of m that are at least d (geMask). */
  function From(m: Mask, d: int): Mask { set l | l in m && d <= l }

  /** The lengths lo..hi. */
  function Window(lo: int, hi: int): (m: Mask)
    ensures forall l :: l in m <==> lo <= l <= hi
    decreases hi - lo
  {
    if lo > hi then {} else {lo} + Window(lo + 1, hi)
  }

  /** The prefix reached from n, at depth d, by s is in the set n stands for. */
  predicate Holds(n: Node, d: nat, s: seq<bool>)
    decreases n
  {
    n.Node? &&
    (d + |s| in n.mask || (s != [] && Holds(Kid(n, s[0]), d + 1, s[1..])))
  }

  /** The same, where every prefix whose length is in inh is in the set as well. */
  predicate HoldsWith(n: Node, d: nat, inh: Mask, s: seq<bool>) {
    d + |s| in inh || Holds(n, d, s)
  }

  /** The form every exported operation returns (types/prefixspace.go:26-29): no length below the
      depth or held by an ancestor, no length shared by two children, no empty node. */
  predicate Canonical(n: Node, d: nat, width: nat, above: Mask)
    decreases n
  {
    n.Nil? ||
    (&& d <= width
     && (forall l :: l in n.mask ==> d <= l <= width && l !in above)
     && MaskOf(n.zero) !! MaskOf(n.one)
     && (n.mask == {} ==> n.zero.Node? || n.one.Node?)
     && (d == width ==> Leaf(n))
     && Canonical(n.zero, d + 1, width, above + n.mask)
     && Canonical(n.one, d + 1, width, above + n.mask))
  }

  predicate Covers(above: Mask, less: Mask, d: int) { forall l :: l in less && d <= l ==> l in above }

  lemma {:induction false} CanonicalBelowLess(n: Node, d: nat, width: nat, above: Mask, less: Mask)
    requires Canonical(n, d, width, above) && Covers(above, less, d)
    ensures Canonical(n, d, width, less)
    decreases n
  {
    if n.Node? {
      CanonicalBelowLess(n.zero, d + 1, width, above + n.mask, less + n.mask);
      CanonicalBelowLess(n.one, d + 1, width, above + n.mask, less + n.mask);
    }
  }

  lemma PickMissing<T>(a: set<T>, b: set<T>) returns (l: T)
    requires !(a <= b)
    ensures l in a && l !in b
  {
    l :| l in a && l !in b;
  }

  /** A canonical node is never empty. */
  lemma {:induction false} Inhabited(n: Node, d: nat, width: nat, above: Mask) returns (s: seq<bool>)
    requires n.Node? && Canonical(n, d, width, above)
    ensures d + |s| <= width && d + |s| !in above && Holds(n, d, s)
    decreases n
  {
    if n.mask != {} {
      var l := Pick(n.mask);
      s := seq(l - d, _ => false);
    } else {
      var b := n.zero.Nil?;
      var t := Inhabited(Kid(n, b), d + 1, width, above + n.mask);
      s := [b] + t;
      assert s[1..] == t;
    }
  }

  // ---- building nodes ----

  function Mk(m: Mask, zero: Node, one: Node): Node {
    if m == {} && zero.Nil? && one.Nil? then Nil else Node(m, zero, one)
  }

  function Without(n: Node, m: Mask): Node
    requires n.Node?
  {
    Mk(n.mask - m, n.zero, n.one)
  }

  function Common(zero: Node, one: Node, d: nat): Mask {
    if zero.Nil? || one.Nil? then {} else From(zero.mask * one.mask, d + 1)
  }

  /** Mk after moving the lengths both children hold up to the node. */
  function Lifted(m: Mask, zero: Node, one: Node, d: nat): Node {
    var common := Common(zero, one, d);
    if common == {} then Mk(m, zero, one)
    else Mk(m + common, Without(zero, common), Without(one, common))
  }

  lemma WithoutHolds(n: Node, m: Mask, d: nat, s: seq<bool>)
    requires n.Node?
    ensures Holds(Without(n, m), d, s) ==> Holds(n, d, s)
    ensures d + |s| !in m ==> (Holds(Without(n, m), d, s) <==> Holds(n, d, s))
  {
    assert d + |s| in n.mask && d + |s| !in m ==> d + |s| in n.mask - m;
  }

  lemma LiftedHolds(m: Mask, zero: Node, one: Node, d: nat, s: seq<bool>)
    ensures Holds(Lifted(m, zero, one, d), d, s) <==>
            (d + |s| in m || (s != [] && Holds(if s[0] then one else zero, d + 1, s[1..])))
  {
    var common := Common(zero, one, d);
    if common != {} && s != [] {
      WithoutHolds(if s[0] then one else zero, common, d + 1, s[1..]);
    }
  }

  lemma WithoutCanonical(n: Node, d: nat, width: nat, above: Mask, above': Mask, m: Mask)
    requires n.Node? && Canonical(n, d, width, above)
    requires Covers(above + m, above', d) && m <= n.mask
    ensures Canonical(Without(n, m), d, width, above')
  {
    CanonicalBelowLess(n.zero, d + 1, width, above + n.mask, above' + (n.mask - m));
    CanonicalBelowLess(n.one, d + 1, width, above + n.mask, above' + (n.mask - m));
  }

  lemma LiftedCanonical(m: Mask, zero: Node, one: Node, d: nat, width: nat, above: Mask)
    requires d < width
    requires forall l :: l in m ==> d <= l <= width && l !in above
    requires Canonical(zero, d + 1, width, From(above + m, d + 1))
    requires Canonical(one, d + 1, width, From(above + m, d + 1))
    ensures Canonical(Lifted(m, zero, one, d), d, width, above)
  {
    var common := Common(zero, one, d);
    var below := From(above + m, d + 1);
    if common == {} {
      assert forall l :: l in MaskOf(zero) && l in MaskOf(one) ==> l in common;
      CanonicalBelowLess(zero, d + 1, width, below, above + m);
      CanonicalBelowLess(one, d + 1, width, below, above + m);
    } else {
      WithoutCanonical(zero, d + 1, width, below, above + (m + common), common);
      WithoutCanonical(one, d + 1, width, below, above + (m + common), common);
      var z, o := Without(zero, common), Without(one, common);
      assert forall l :: l in zero.mask && l in one.mask ==> l in common;
    }
  }

  // ---- uniqueness of the canonical form ----

  /** If a canonical node's set has every prefix of length l under it, and no ancestor holds l,
      then the node holds l itself. */
  lemma {:induction false} FullIsHeld(n: Node, d: nat, width: nat, above: Mask, l: nat)
    requires Canonical(n, d, width, above) && d <= l <= width && l !in above
    requires forall s: seq<bool> :: |s| == l - d ==> Holds(n, d, s)
    ensures l in MaskOf(n)
    decreases n
  {
    var some: seq<bool> := seq(l - d, _ => false);
    assert Holds(n, d, some);
    if l !in n.mask {
      forall b: bool, t: seq<bool> | |t| == l - (d + 1) ensures Holds(Kid(n, b), d + 1, t) {
        assert Holds(n, d, [b] + t) && ([b] + t)[1..] == t;
      }
      FullIsHeld(n.zero, d + 1, width, above + n.mask, l) by {
        assert forall t: seq<bool> :: |t| == l - (d + 1) ==> Holds(Kid(n, false), d + 1, t);
      }
      FullIsHeld(n.one, d + 1, width, above + n.mask, l) by {
        assert forall t: seq<bool> :: |t| == l - (d + 1) ==> Holds(Kid(n, true), d + 1, t);
      }
    }
  }

  ghost predicate SameBelow(a: Node, b: Node, d: nat, width: nat, above: Mask) {
    forall s: seq<bool> :: d + |s| <= width && d + |s| !in above ==> (Holds(a, d, s) <==> Holds(b, d, s))
  }

  lemma MaskWithin(a: Node, b: Node, d: nat, width: nat, above: Mask)
    requires Canonical(a, d, width, above) && Canonical(b, d, width, above)
    requires SameBelow(a, b, d, width, above)
    ensures MaskOf(a) <= MaskOf(b)
  {
    forall l | l in MaskOf(a) ensures l in MaskOf(b) {
      forall s: seq<bool> | |s| == l - d ensures Holds(b, d, s) {
        assert Holds(a, d, s);
      }
      FullIsHeld(b, d, width, above, l);
    }
  }

  /** Two canonical tries with the same prefixes are the same trie. */
  lemma {:induction false} CanonicalUnique(a: Node, b: Node, d: nat, width: nat, above: Mask)
    requires Canonical(a, d, width, above) && Canonical(b, d, width, above)
    requires SameBelow(a, b, d, width, above)
    ensures a == b
    decreases a, b
  {
    if a.Nil? && b.Node? {
      var s := Inhabited(b, d, width, above);
    } else if a.Node? && b.Nil? {
      var s := Inhabited(a, d, width, above);
    } else if a.Node? {
      MaskWithin(a, b, d, width, above);
      MaskWithin(b, a, d, width, above);
      assert a.mask == b.mask;
      if d < width {
        var deeper := above + a.mask;
        forall c: bool, t: seq<bool> | d + 1 + |t| <= width && d + 1 + |t| !in deeper
          ensures Holds(Kid(a, c), d + 1, t) <==> Holds(Kid(b, c), d + 1, t)
        {
          var s := [c] + t;
          assert s[1..] == t;
          assert Holds(a, d, s) <==> Holds(b, d, s);
        }
        CanonicalUnique(a.zero, b.zero, d + 1, width, deeper) by {
          assert forall t: seq<bool> :: d + 1 + |t| <= width && d + 1 + |t| !in deeper ==>
            (Holds(Kid(a, false), d + 1, t) <==> Holds(Kid(b, false), d + 1, t));
        }
        CanonicalUnique(a.one, b.one, d + 1, width, deeper) by {
          assert forall t: seq<bool> :: d + 1 + |t| <= width && d + 1 + |t| !in deeper ==>
            (Holds(Kid(a, true), d + 1, t) <==> Holds(Kid(b, true), d + 1, t));
        }
      }
    }
  }

  // ---- union, intersection, difference ----

  datatype SetOp = OpUnion | OpIntersect | OpMinus {
    function Masks(a: Mask, b: Mask): Mask {
      match this
      case OpUnion => a + b
      case OpIntersect => a * b
      case OpMinus => a - b
    }

    predicate Bools(a: bool, b: bool) {
      match this
      case OpUnion => a || b
      case OpIntersect => a && b
      case OpMinus => a && !b
    }
  }

  /** The subtree returned as it is, where nothing is inherited and one side is absent. */
  function Shortcut(op: SetOp, a: Node, b: Node): Node
    requires a.Nil? || b.Nil?
  {
    match op
    case OpUnion => if a.Nil? then b else a
    case OpIntersect => Nil
    case OpMinus => a
  }

  function Merge(op: SetOp, a: Node, b: Node, d: nat, width: nat, inA: Mask, inB: Mask): Node
    requires d <= width
    decreases width - d
  {
    if inA == {} && inB == {} && (a.Nil? || b.Nil?) then Shortcut(op, a, b)
    else
      var fa, fb := From(inA + MaskOf(a), d), From(inB + MaskOf(b), d);
      if Leaf(a) && Leaf(b) then Mk(op.Masks(fa, fb), Nil, Nil)
      else
        var m := op.Masks(fa, fb) * {d};
        if d < width then
          var ia, ib := From(fa, d + 1), From(fb, d + 1);
          Lifted(m, Merge(op, Kid(a, false), Kid(b, false), d + 1, width, ia, ib),
                    Merge(op, Kid(a, true), Kid(b, true), d + 1, width, ia, ib), d)
        else Mk(m, Nil, Nil)
  }

  lemma LeafHolds(n: Node, d: nat, s: seq<bool>)
    requires Leaf(n)
    ensures Holds(n, d, s) <==> d + |s| in MaskOf(n)
  {
  }

  lemma MkLeafHolds(m: Mask, d: nat, s: seq<bool>)
    ensures Holds(Mk(m, Nil, Nil), d, s) <==> d + |s| in m
  {
  }

  lemma MasksBools(op: SetOp, a: Mask, b: Mask, l: int)
    ensures l in op.Masks(a, b) <==> op.Bools(l in a, l in b)
  {
  }

  /** A node's prefixes: its own lengths, or the child's on the path. */
  lemma HoldsWithStep(n: Node, d: nat, inh: Mask, s: seq<bool>)
    ensures s == [] ==> (HoldsWith(n, d, inh, s) <==> d in From(inh + MaskOf(n), d))
    ensures s != [] ==> (HoldsWith(n, d, inh, s) <==>
                         HoldsWith(Kid(n, s[0]), d + 1, From(From(inh + MaskOf(n), d), d + 1), s[1..]))
  {
  }

  /** Merge is exact at every depth and under any inherited lengths. */
  lemma {:induction false} MergeHolds(op: SetOp, a: Node, b: Node, d: nat, width: nat, inA: Mask, inB: Mask,
                                      s: seq<bool>)
    requires d + |s| <= width
    ensures Holds(Merge(op, a, b, d, width, inA, inB), d, s) <==>
            op.Bools(HoldsWith(a, d, inA, s), HoldsWith(b, d, inB, s))
    decreases width - d
  {
    var fa, fb := From(inA + MaskOf(a), d), From(inB + MaskOf(b), d);
    MasksBools(op, fa, fb, d + |s|);
    if inA == {} && inB == {} && (a.Nil? || b.Nil?) {
    } else if Leaf(a) && Leaf(b) {
      LeafHolds(a, d, s);
      LeafHolds(b, d, s);
      MkLeafHolds(op.Masks(fa, fb), d, s);
    } else {
      HoldsWithStep(a, d, inA, s);
      HoldsWithStep(b, d, inB, s);
      var m := op.Masks(fa, fb) * {d};
      if d == width {
        MkLeafHolds(m, d, s);
      } else {
        var ia, ib := From(fa, d + 1), From(fb, d + 1);
        var zero := Merge(op, Kid(a, false), Kid(b, false), d + 1, width, ia, ib);
        var one := Merge(op, Kid(a, true), Kid(b, true), d + 1, width, ia, ib);
        LiftedHolds(m, zero, one, d, s);
        if s != [] {
          MergeHolds(op, Kid(a, s[0]), Kid(b, s[0]), d + 1, width, ia, ib, s[1..]);
        }
      }
    }
  }

  predicate Within(m: Mask, width: nat) { forall l :: l in m ==> l <= width }

  lemma LeafCanonical(m: Mask, d: nat, width: nat)
    requires d <= width && forall l :: l in m ==> d <= l <= width
    ensures Canonical(Mk(m, Nil, Nil), d, width, {})
  {
  }

  /** Merge of canonical tries is canonical. */
  lemma {:induction false} MergeCanonical(op: SetOp, a: Node, b: Node, d: nat, width: nat, inA: Mask, inB: Mask,
                                          aboveA: Mask, aboveB: Mask)
    requires d <= width && Within(inA, width) && Within(inB, width)
    requires Canonical(a, d, width, aboveA) && Canonical(b, d, width, aboveB)
    ensures Canonical(Merge(op, a, b, d, width, inA, inB), d, width, {})
    decreases width - d
  {
    var fa, fb := From(inA + MaskOf(a), d), From(inB + MaskOf(b), d);
    if inA == {} && inB == {} && (a.Nil? || b.Nil?) {
      CanonicalBelowLess(a, d, width, aboveA, {});
      CanonicalBelowLess(b, d, width, aboveB, {});
    } else if Leaf(a) && Leaf(b) {
      LeafCanonical(op.Masks(fa, fb), d, width);
    } else {
      var m := op.Masks(fa, fb) * {d};
      if d == width {
        LeafCanonical(m, d, width);
      } else {
        var ia, ib := From(fa, d + 1), From(fb, d + 1);
        MergeCanonical(op, Kid(a, false), Kid(b, false), d + 1, width, ia, ib, aboveA + MaskOf(a), aboveB + MaskOf(b));
        MergeCanonical(op, Kid(a, true), Kid(b, true), d + 1, width, ia, ib, aboveA + MaskOf(a), aboveB + MaskOf(b));
        assert From({} + m, d + 1) == {};
        LiftedCanonical(m, Merge(op, Kid(a, false), Kid(b, false), d + 1, width, ia, ib),
                        Merge(op, Kid(a, true), Kid(b, true), d + 1, width, ia, ib), d, width, {});
      }
    }
  }
}
