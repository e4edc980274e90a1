/** A space as a list of ranges (types/prefixspace.go:282-327). */
module SpaceRanges {
  import opened Prefixes
  import opened Tries
  import opened PrefixSpaces

  /** The end of the run of consecutive lengths of m that starts at l. */
  function RunEnd(m: Mask, l: nat, width: nat): (hi: nat)
    requires l in m && l <= width
    ensures l <= hi <= width && (forall k :: l <= k <= hi ==> k in m) && (hi == width || hi + 1 !in m)
    decreases width - l
  {
    if l < width && l + 1 in m then RunEnd(m, l + 1, width) else l
  }

  /** The ranges a node with prefix p and mask m yields: its runs of lengths, from l up. */
  function Runs(p: Prefix, m: Mask, l: nat): seq<PrefixRange>
    decreases Width(p.family) + 1 - l
  {
    if l > Width(p.family) then []
    else if l !in m then Runs(p, m, l + 1)
    else
      var hi := RunEnd(m, l, Width(p.family));
      [PrefixRange(p, l, hi)] + Runs(p, m, hi + 1)
  }

  function RangesOf(n: Node, p: Prefix): seq<PrefixRange>
    decreases n
  {
    if n.Nil? then []
    else Runs(p, n.mask, |p.net|) + RangesOf(n.zero, Below(p, false)) + RangesOf(n.one, Below(p, true))
  }

  function Below(p: Prefix, b: bool): Prefix { Prefix(p.family, p.net + [b]) }

  function Root(f: Family): Prefix { Prefix(f, []) }

  function Ranges(s: Space): seq<PrefixRange> { RangesOf(s.v4, Root(V4)) + RangesOf(s.v6, Root(V6)) }

  // ---- what the ranges mean ----

  lemma AnyDenotesConcat(a: seq<PrefixRange>, b: seq<PrefixRange>, q: Prefix)
    ensures AnyDenotes(a + b, q) <==> AnyDenotes(a, q) || AnyDenotes(b, q)
  {
    if AnyDenotes(a, q) {
      var i :| 0 <= i < |a| && a[i].Denotes(q);
      assert (a + b)[i].Denotes(q);
    }
    if AnyDenotes(b, q) {
      var i :| 0 <= i < |b| && b[i].Denotes(q);
      assert (a + b)[|a| + i].Denotes(q);
    }
  }

  lemma {:induction false} RunsDenote(p: Prefix, m: Mask, l: nat, q: Prefix)
    requires q.Valid()
    ensures AnyDenotes(Runs(p, m, l), q) <==> q.Under(p) && l <= |q.net| && |q.net| in m
    decreases Width(p.family) + 1 - l
  {
    if l > Width(p.family) {
    } else if l !in m {
      RunsDenote(p, m, l + 1, q);
    } else {
      var hi := RunEnd(m, l, Width(p.family));
      RunsDenote(p, m, hi + 1, q);
      AnyDenotesConcat([PrefixRange(p, l, hi)], Runs(p, m, hi + 1), q);
      assert AnyDenotes([PrefixRange(p, l, hi)], q) <==> [PrefixRange(p, l, hi)][0].Denotes(q);
    }
  }

  lemma {:induction false} RangesOfDenote(n: Node, p: Prefix, above: Mask, q: Prefix)
    requires Canonical(n, |p.net|, Width(p.family), above) && q.Valid()
    ensures AnyDenotes(RangesOf(n, p), q) <==> q.Under(p) && Holds(n, |p.net|, q.net[|p.net|..])
    decreases n
  {
    if n.Node? {
      var d := |p.net|;
      var own, zero, one := Runs(p, n.mask, d), RangesOf(n.zero, Below(p, false)), RangesOf(n.one, Below(p, true));
      AnyDenotesConcat(own + zero, one, q);
      AnyDenotesConcat(own, zero, q);
      RunsDenote(p, n.mask, d, q);
      RangesOfDenote(n.zero, Below(p, false), above + n.mask, q);
      RangesOfDenote(n.one, Below(p, true), above + n.mask, q);
      HeldByKid(n, p, q);
    }
  }

  /** What a node holds: its own lengths, or what the child on the way holds. */
  lemma {:induction false} HeldByKid(n: Node, p: Prefix, q: Prefix)
    requires n.Node?
    ensures var d := |p.net|;
            q.Under(p) && Holds(n, d, q.net[d..]) <==>
            (q.Under(p) && |q.net| in n.mask) ||
            (q.Under(Below(p, false)) && Holds(n.zero, d + 1, q.net[d + 1..])) ||
              (q.Under(Below(p, true)) && Holds(n.one, d + 1, q.net[d + 1..]))
  {
    var d := |p.net|;
    if q.Under(p) && |q.net| > d {
      assert q.net[d..][1..] == q.net[d + 1..];
      assert forall b: bool :: q.Under(Below(p, b)) <==> q.net[d] == b;
    }
  }

  /** Ranges denotes exactly the space, so building a space from it gives the space back. */
  lemma RangesRoundTrip(s: Space)
    requires s.Valid()
    ensures ValidList(Ranges(s)) && SpaceOf(Ranges(s)) == s
  {
    RangesShape(s.v4, Root(V4), {});
    RangesShape(s.v6, Root(V6), {});
    SpaceOfMeaning(Ranges(s));
    forall q: Prefix | q.Valid() ensures SpaceOf(Ranges(s)).Contains(q) <==> s.Contains(q) {
      RangesOfDenote(s.v4, Root(V4), {}, q);
      RangesOfDenote(s.v6, Root(V6), {}, q);
      AnyDenotesConcat(RangesOf(s.v4, Root(V4)), RangesOf(s.v6, Root(V6)), q);
      assert q.net[0..] == q.net;
    }
    EqualIsSamePrefixes(SpaceOf(Ranges(s)), s);
  }

  // ---- order and disjointness ----

  predicate Before(r: PrefixRange, s: PrefixRange)
    requires r.Valid() && s.Valid()
  {
    PrefixLess(r.prefix, s.prefix) || (r.prefix == s.prefix && r.lo < s.lo)
  }

  ghost predicate Apart(r: PrefixRange, s: PrefixRange) { forall q: Prefix :: !(r.Denotes(q) && s.Denotes(q)) }

  /** In canonical order, and pairwise disjoint. */
  ghost predicate Listed(rs: seq<PrefixRange>) {
    ValidList(rs) && forall i, j :: 0 <= i < j < |rs| ==> Before(rs[i], rs[j]) && Apart(rs[i], rs[j])
  }

  ghost predicate Precede(a: seq<PrefixRange>, b: seq<PrefixRange>)
    requires ValidList(a) && ValidList(b)
  {
    forall i, j :: 0 <= i < |a| && 0 <= j < |b| ==> Before(a[i], b[j]) && Apart(a[i], b[j])
  }

  lemma ListedConcat(a: seq<PrefixRange>, b: seq<PrefixRange>)
    requires Listed(a) && Listed(b) && Precede(a, b)
    ensures Listed(a + b)
  {
  }

  /** The lengths of r are none of above. */
  predicate Clear(r: PrefixRange, above: Mask) { forall l :: r.lo <= l <= r.hi ==> l !in above }

  /** Every range under p, non-empty, and clear of the lengths above. */
  predicate Shaped(rs: seq<PrefixRange>, p: Prefix, above: Mask) {
    forall i :: 0 <= i < |rs| ==> rs[i].Valid() && !rs[i].IsEmpty() && rs[i].prefix.Under(p) && Clear(rs[i], above)
  }

  lemma ShapedMono(rs: seq<PrefixRange>, p: Prefix, above: Mask, p': Prefix, above': Mask)
    requires Shaped(rs, p, above) && p.Under(p') && above' <= above
    ensures Shaped(rs, p', above')
  {
  }

  lemma {:induction false} RunsShape(p: Prefix, m: Mask, l: nat, above: Mask)
    requires p.Valid() && |p.net| <= l && forall k :: k in m ==> k !in above
    ensures Shaped(Runs(p, m, l), p, above) && Listed(Runs(p, m, l))
    ensures forall r :: r in Runs(p, m, l) ==> r.prefix == p && l <= r.lo && forall k :: r.lo <= k <= r.hi ==> k in m
    decreases Width(p.family) + 1 - l
  {
    if l > Width(p.family) {
    } else if l !in m {
      RunsShape(p, m, l + 1, above);
    } else {
      var hi := RunEnd(m, l, Width(p.family));
      var rest := Runs(p, m, hi + 1);
      RunsShape(p, m, hi + 1, above);
      forall j | 0 <= j < |rest| ensures rest[j].prefix == p && hi + 1 <= rest[j].lo {
        assert rest[j] in rest;
      }
      ListedConcat([PrefixRange(p, l, hi)], rest);
    }
  }

  lemma {:induction false} RangesShape(n: Node, p: Prefix, above: Mask)
    requires p.Valid() && Canonical(n, |p.net|, Width(p.family), above)
    ensures Shaped(RangesOf(n, p), p, above)
    decreases n
  {
    if n.Node? {
      RunsShape(p, n.mask, |p.net|, above);
      forall b: bool | Kid(n, b).Node? ensures Shaped(RangesOf(Kid(n, b), Below(p, b)), p, above) {
        RangesShape(Kid(n, b), Below(p, b), above + n.mask);
        ShapedMono(RangesOf(Kid(n, b), Below(p, b)), Below(p, b), above + n.mask, p, above);
      }
      assert Shaped(RangesOf(Kid(n, false), Below(p, false)), p, above);
      assert Shaped(RangesOf(Kid(n, true), Below(p, true)), p, above);
    }
  }

  lemma OwnPrecedesBelow(p: Prefix, m: Mask, b: bool, rs: seq<PrefixRange>)
    requires p.Valid() && Below(p, b).Valid() && Shaped(rs, Below(p, b), m)
    ensures ValidList(Runs(p, m, |p.net|)) && Precede(Runs(p, m, |p.net|), rs)
  {
    var own := Runs(p, m, |p.net|);
    RunsShape(p, m, |p.net|, {});
    forall i, j | 0 <= i < |own| && 0 <= j < |rs| ensures Before(own[i], rs[j]) && Apart(own[i], rs[j]) {
      assert own[i] in own;
      ShorterFirst(p, rs[j].prefix);
      forall q: Prefix | own[i].Denotes(q) ensures !rs[j].Denotes(q) { assert |q.net| in m; }
    }
  }

  lemma ZeroPrecedesOne(p: Prefix, zero: seq<PrefixRange>, one: seq<PrefixRange>, above: Mask)
    requires Shaped(zero, Below(p, false), above) && Shaped(one, Below(p, true), above)
    ensures Precede(zero, one)
  {
    forall i, j | 0 <= i < |zero| && 0 <= j < |one| ensures Before(zero[i], one[j]) && Apart(zero[i], one[j]) {
      ZeroBeforeOne(p, zero[i].prefix, one[j].prefix);
      forall q: Prefix | zero[i].Denotes(q) ensures !one[j].Denotes(q) {
        assert q.net[|p.net|] == Below(p, false).net[|p.net|];
      }
    }
  }

  lemma {:induction false} RangesOfListed(n: Node, p: Prefix, above: Mask)
    requires p.Valid() && Canonical(n, |p.net|, Width(p.family), above)
    ensures Listed(RangesOf(n, p))
    decreases n
  {
    if n.Node? {
      var own := Runs(p, n.mask, |p.net|);
      RunsShape(p, n.mask, |p.net|, above);
      if Leaf(n) {
        assert own + [] + [] == own;
      } else {
        var zero, one := RangesOf(n.zero, Below(p, false)), RangesOf(n.one, Below(p, true));
        RangesShape(n.zero, Below(p, false), above + n.mask);
        RangesShape(n.one, Below(p, true), above + n.mask);
        RangesOfListed(n.zero, Below(p, false), above + n.mask);
        RangesOfListed(n.one, Below(p, true), above + n.mask);
        ShapedMono(zero, Below(p, false), above + n.mask, Below(p, false), n.mask);
        ShapedMono(one, Below(p, true), above + n.mask, Below(p, true), n.mask);
        OwnPrecedesBelow(p, n.mask, false, zero);
        OwnPrecedesBelow(p, n.mask, true, one);
        ZeroPrecedesOne(p, zero, one, n.mask);
        ListedConcat(own, zero);
        ListedConcat(own + zero, one);
      }
    }
  }

  /** Ranges lists disjoint ranges in canonical order, IPv4 first. */
  lemma RangesListed(s: Space)
    requires s.Valid()
    ensures Listed(Ranges(s))
  {
    RangesOfListed(s.v4, Root(V4), {});
    RangesOfListed(s.v6, Root(V6), {});
    RangesShape(s.v4, Root(V4), {});
    RangesShape(s.v6, Root(V6), {});
    ListedConcat(RangesOf(s.v4, Root(V4)), RangesOf(s.v6, Root(V6)));
  }

  // ---- the walk over an address buffer ----

  /** The bits of addr from d on are zero. */
  predicate ClearFrom(addr: array<bool>, d: nat)
    reads addr
  {
    forall i :: d <= i < addr.Length ==> !addr[i]
  }

  /** The loop over a node's own lengths, a run at a time. */
  method YieldRuns(p: Prefix, m: Mask, out: seq<PrefixRange>) returns (out': seq<PrefixRange>)
    ensures out' == out + Runs(p, m, |p.net|)
  {
    out' := out;
    var l, width := |p.net|, Width(p.family);
    while l <= width
      invariant out' + Runs(p, m, l) == out + Runs(p, m, |p.net|)
      decreases width + 1 - l
    {
      if l in m {
        var hi := l;
        while hi < width && hi + 1 in m
          invariant l <= hi <= width && hi in m && RunEnd(m, l, width) == RunEnd(m, hi, width)
        {
          hi := hi + 1;
        }
        out' := out' + [PrefixRange(p, l, hi)];
        l := hi;
      }
      l := l + 1;
    }
  }

  /** walkRanges: the path is kept in one address buffer, whose bit at each depth is set on the way
      down and cleared on the way back. */
  method WalkRanges(n: Node, f: Family, d: nat, ghost above: Mask, addr: array<bool>, out: seq<PrefixRange>)
    returns (out': seq<PrefixRange>)
    requires addr.Length == Width(f) && d <= addr.Length && ClearFrom(addr, d)
    requires Canonical(n, d, Width(f), above)
    modifies addr
    ensures addr[..] == old(addr[..])
    ensures out' == out + RangesOf(n, Prefix(f, old(addr[..d])))
    decreases n, 1
  {
    out' := out;
    if n.Node? {
      var p := Prefix(f, addr[..d]);
      out' := YieldRuns(p, n.mask, out);
      if n.zero.Node? {
        out' := WalkKid(n, false, f, d, above, addr, out');
      }
      if n.one.Node? {
        out' := WalkKid(n, true, f, d, above, addr, out');
      }
    }
  }

  method WalkKid(n: Node, b: bool, f: Family, d: nat, ghost above: Mask, addr: array<bool>, out: seq<PrefixRange>)
    returns (out': seq<PrefixRange>)
    requires addr.Length == Width(f) && d < addr.Length && ClearFrom(addr, d)
    requires n.Node? && Canonical(Kid(n, b), d + 1, Width(f), above + n.mask)
    modifies addr
    ensures addr[..] == old(addr[..])
    ensures out' == out + RangesOf(Kid(n, b), Below(Prefix(f, old(addr[..d])), b))
    decreases n, 0
  {
    ghost var was := addr[..];
    addr[d] := b;
    assert addr[..d + 1] == was[..d] + [b];
    out' := WalkRanges(Kid(n, b), f, d + 1, above + n.mask, addr, out);
    addr[d] := false;
    assert addr[..] == was[d := b][d := false];
  }
}
