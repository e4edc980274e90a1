/** One prefix of a space: the shortest, and of those the lowest (types/prefixspace.go:224-280). */
module SpaceExamples {
  import opened Collections
  import opened Prefixes
  import opened Tries
  import opened PrefixSpaces
  import opened SpaceRanges

  /** The smallest length of m from l up, or -1. */
  function Lowest(m: Mask, l: nat, width: nat): (r: int)
    ensures r == -1 || (l <= r <= width && r in m)
    ensures forall k :: k in m && l <= k <= width ==> 0 <= r <= k
    decreases width + 1 - l
  {
    if l > width then -1 else if l in m then l else Lowest(m, l + 1, width)
  }

  function Better(best: int, l: int): int { if l >= 0 && (best < 0 || l < best) then l else best }

  /** The least of the lengths in n's masks and those below it, or -1. */
  function Shortest(n: Node, width: nat): int {
    if n.Nil? then -1
    else Better(Better(Lowest(n.mask, 0, width), Shortest(n.zero, width)), Shortest(n.one, width))
  }

  /** A canonical node has a shortest length, and it is no longer than anything the node holds. */
  lemma {:induction false} ShortestIsLeast(n: Node, d: nat, width: nat, above: Mask)
    requires Canonical(n, d, width, above)
    ensures n.Node? ==> d <= Shortest(n, width) <= width
    ensures forall s: seq<bool> :: d + |s| <= width && Holds(n, d, s) ==> Shortest(n, width) <= d + |s|
    decreases n
  {
    if n.Node? {
      ShortestIsLeast(n.zero, d + 1, width, above + n.mask);
      ShortestIsLeast(n.one, d + 1, width, above + n.mask);
      if n.mask != {} { var l := Pick(n.mask); }
      forall s: seq<bool> | d + |s| <= width && Holds(n, d, s) ensures Shortest(n, width) <= d + |s| {
        if d + |s| !in n.mask { assert Holds(Kid(n, s[0]), d + 1, s[1..]); }
      }
    }
  }

  // ---- the first prefix of a length ----

  /** The prefix of length l at p's address. */
  function Padded(p: Prefix, l: nat): Prefix {
    Prefix(p.family, if l <= |p.net| then p.net[..l] else p.net + Zeros(l - |p.net|))
  }

  function FirstWith(n: Node, p: Prefix, l: nat): Option<Prefix>
    decreases n
  {
    if n.Nil? then None
    else if l in n.mask then Some(Padded(p, l))
    else
      var zero := FirstWith(n.zero, Below(p, false), l);
      if zero.Some? then zero else FirstWith(n.one, Below(p, true), l)
  }

  lemma {:induction false} PaddedIsLowest(p: Prefix, l: nat, q: Prefix)
    requires |p.net| <= l <= Width(p.family) && q.Under(p) && |q.net| == l
    ensures Padded(p, l) == q || PrefixLess(Padded(p, l), q)
  {
    var r := Padded(p, l);
    var a, b := Address(r), Address(q);
    if a == b {
      AddressInjective(r, q);
    } else {
      var i := FirstDifference(a, b, 0);
      assert forall k :: 0 <= k < |p.net| ==> a[k] == p.net[k] && b[k] == q.net[k];
      AddressLessIntro(a, b, i);
    }
  }

  /** q is a prefix of length l that n, whose own prefix is p, holds. */
  predicate HeldWith(n: Node, p: Prefix, l: nat, q: Prefix) {
    q.Under(p) && |q.net| == l && Holds(n, |p.net|, q.net[|p.net|..])
  }

  /** r is the lowest such prefix. */
  ghost predicate IsFirst(n: Node, p: Prefix, l: nat, r: Prefix)
    requires l <= Width(p.family)
  {
    HeldWith(n, p, l, r) && forall q: Prefix :: HeldWith(n, p, l, q) ==> q == r || PrefixLess(r, q)
  }

  lemma {:induction false} HeldStep(n: Node, p: Prefix, l: nat, q: Prefix)
    requires n.Node? && l !in n.mask
    ensures HeldWith(n, p, l, q) <==> HeldWith(n.zero, Below(p, false), l, q) || HeldWith(n.one, Below(p, true), l, q)
  {
    var d := |p.net|;
    if q.Under(p) && |q.net| == l && d < l {
      assert q.net[d..][1..] == q.net[d + 1..] && q.net[d..][0] == q.net[d];
      assert forall b: bool :: q.Under(Below(p, b)) <==> q.net[d] == b;
    } else {
      assert forall b: bool :: q.Under(Below(p, b)) ==> q.Under(p) by {
        forall b: bool | q.Under(Below(p, b)) ensures q.Under(p) { assert p.net == Below(p, b).net[..d]; }
      }
    }
  }

  lemma {:induction false} FirstWithIsFirst(n: Node, p: Prefix, l: nat, above: Mask)
    requires Canonical(n, |p.net|, Width(p.family), above) && l <= Width(p.family)
    ensures FirstWith(n, p, l).Some? ==> IsFirst(n, p, l, FirstWith(n, p, l).value)
    ensures FirstWith(n, p, l).None? ==> forall q: Prefix :: !HeldWith(n, p, l, q)
    decreases n
  {
    if n.Node? {
      if l in n.mask {
        forall q: Prefix | HeldWith(n, p, l, q)
          ensures Padded(p, l) == q || PrefixLess(Padded(p, l), q)
        {
          PaddedIsLowest(p, l, q);
        }
      } else {
        FirstWithIsFirst(n.zero, Below(p, false), l, above + n.mask);
        FirstWithIsFirst(n.one, Below(p, true), l, above + n.mask);
        FirstOfKids(n, p, l);
      }
    }
  }

  lemma {:induction false} FirstOfKids(n: Node, p: Prefix, l: nat)
    requires n.Node? && l <= Width(p.family) && l !in n.mask
    requires forall b: bool :: var f := FirstWith(Kid(n, b), Below(p, b), l);
               if f.Some? then IsFirst(Kid(n, b), Below(p, b), l, f.value)
               else forall q: Prefix :: !HeldWith(Kid(n, b), Below(p, b), l, q)
    ensures FirstWith(n, p, l).Some? ==> IsFirst(n, p, l, FirstWith(n, p, l).value)
    ensures FirstWith(n, p, l).None? ==> forall q: Prefix :: !HeldWith(n, p, l, q)
  {
    var zero, one := FirstWith(Kid(n, false), Below(p, false), l), FirstWith(Kid(n, true), Below(p, true), l);
    forall q: Prefix
      ensures HeldWith(n, p, l, q) <==> HeldWith(n.zero, Below(p, false), l, q) || HeldWith(n.one, Below(p, true), l, q)
    {
      HeldStep(n, p, l, q);
    }
    if zero.Some? {
      forall q: Prefix | HeldWith(n.one, Below(p, true), l, q)
        ensures PrefixLess(zero.value, q)
      {
        ZeroBeforeOne(p, zero.value, q);
      }
    }
  }

  // ---- Example ----

  function FamilyExample(s: Space, f: Family): Option<Prefix> {
    var l := Shortest(s.Trie(f), Width(f));
    if l < 0 then None else FirstWith(s.Trie(f), Root(f), l)
  }

  function Example(s: Space): Option<Prefix> {
    var p := FamilyExample(s, V4);
    if p.Some? then p else FamilyExample(s, V6)
  }

  /** p comes no later than q: its family first, then shorter, then lower. */
  predicate NoLater(p: Prefix, q: Prefix)
    requires p.Valid() && q.Valid()
  {
    if p.family != q.family then p.family.V4?
    else |p.net| < |q.net| || (|p.net| == |q.net| && (p == q || PrefixLess(p, q)))
  }

  lemma {:induction false} FamilyExampleFirst(s: Space, f: Family)
    requires s.Valid()
    ensures FamilyExample(s, f).None? <==> s.Trie(f).Nil?
    ensures var p := FamilyExample(s, f);
            p.Some? ==> p.value.Valid() && p.value.family == f && s.Contains(p.value) &&
                        forall q: Prefix :: q.Valid() && q.family == f && s.Contains(q) ==> NoLater(p.value, q)
  {
    var n, w := s.Trie(f), Width(f);
    assert Canonical(n, 0, w, {});
    ShortestIsLeast(n, 0, w, {});
    if n.Node? {
      var l := Shortest(n, w);
      FirstWithIsFirst(n, Root(f), l, {});
      var held := ShortestHeld(n, 0, w, {});
      assert held[0..] == held;
      assert HeldWith(n, Root(f), l, Prefix(f, held));
      var p := FirstWith(n, Root(f), l).value;
      assert p.net[0..] == p.net;
      forall q: Prefix | q.Valid() && q.family == f && s.Contains(q) ensures NoLater(p, q) {
        assert q.net[0..] == q.net;
        if |q.net| == l { assert HeldWith(n, Root(f), l, q); }
      }
    }
  }

  /** Some prefix of the shortest length is held. */
  lemma {:induction false} ShortestHeld(n: Node, d: nat, width: nat, above: Mask) returns (s: seq<bool>)
    requires n.Node? && Canonical(n, d, width, above)
    ensures d + |s| == Shortest(n, width) && Holds(n, d, s)
    decreases n
  {
    ShortestIsLeast(n, d, width, above);
    var l := Shortest(n, width);
    if l in n.mask {
      s := Zeros(l - d);
    } else {
      var b := Shortest(n.zero, width) != l;
      var t := ShortestHeld(Kid(n, b), d + 1, width, above + n.mask);
      s := [b] + t;
      assert s[1..] == t;
    }
  }

  /** Example gives nothing of an empty space only, and of any other its first prefix: IPv4 before IPv6,
      the shortest, and of the shortest the lowest. */
  lemma {:induction false} ExampleIsFirst(s: Space)
    requires s.Valid()
    ensures Example(s).None? <==> s.IsEmpty()
    ensures Example(s).Some? ==>
              var p := Example(s).value;
              p.Valid() && s.Contains(p) && forall q: Prefix :: q.Valid() && s.Contains(q) ==> NoLater(p, q)
  {
    FamilyExampleFirst(s, V4);
    FamilyExampleFirst(s, V6);
  }

  /** firstWith, its path kept in one address buffer. */
  method FirstWithWalk(n: Node, f: Family, d: nat, ghost above: Mask, l: nat, addr: array<bool>)
    returns (r: Option<Prefix>)
    requires addr.Length == Width(f) && d <= addr.Length && ClearFrom(addr, d) && Canonical(n, d, Width(f), above)
    modifies addr
    ensures addr[..] == old(addr[..]) && r == FirstWith(n, Prefix(f, old(addr[..d])), l)
    decreases n, 1
  {
    r := None;
    if n.Nil? { return; }
    if l in n.mask {
      assert addr[..l] == addr[..d] + Zeros(l - d);
      return Some(Prefix(f, addr[..l]));
    }
    if n.zero.Node? {
      r := FirstInKid(n, false, f, d, above, l, addr);
      if r.Some? { return; }
    }
    if n.one.Node? {
      r := FirstInKid(n, true, f, d, above, l, addr);
    }
  }

  method FirstInKid(n: Node, b: bool, f: Family, d: nat, ghost above: Mask, l: nat, addr: array<bool>)
    returns (r: Option<Prefix>)
    requires addr.Length == Width(f) && d < addr.Length && ClearFrom(addr, d)
    requires n.Node? && Canonical(Kid(n, b), d + 1, Width(f), above + n.mask)
    modifies addr
    ensures addr[..] == old(addr[..]) && r == FirstWith(Kid(n, b), Below(Prefix(f, old(addr[..d])), b), l)
    decreases n, 0
  {
    ghost var was := addr[..];
    addr[d] := b;
    assert addr[..d + 1] == was[..d] + [b];
    r := FirstWithWalk(Kid(n, b), f, d + 1, above + n.mask, l, addr);
    addr[d] := false;
    assert addr[..] == was[d := b][d := false];
  }
}
