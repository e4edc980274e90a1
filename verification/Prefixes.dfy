/** Prefixes, prefix ranges and range operators (types/prefixrange.go, types/rangeop.go).

    A prefix is its address family and its network bits, most significant first; host bits are
    cleared, as in every prefix the package stores. */
module Prefixes {

  datatype Option<+T> = None | Some(value: T)

  datatype Family = V4 | V6

  function Width(f: Family): (w: nat)
    ensures w == 32 || w == 128
  {
    if f.V4? then 32 else 128
  }

  function Max(a: int, b: int): int { if a < b then b else a }

  function Min(a: int, b: int): int { if a < b then a else b }

  datatype Prefix = Prefix(family: Family, net: seq<bool>) {
    predicate Valid() { |net| <= Width(family) }

    /** This prefix is p, or one of p's more specifics. */
    predicate Under(p: Prefix) { family == p.family && p.net <= net }
  }

  /** A base prefix and a window of lengths; the window may be empty ("/32^-"). */
  datatype PrefixRange = PrefixRange(prefix: Prefix, lo: nat, hi: nat) {
    predicate Valid() { prefix.Valid() && |prefix.net| <= lo && hi <= Width(prefix.family) }

    predicate IsEmpty() { lo > hi }

    /** The meaning of a range: the prefixes it stands for. */
    predicate Denotes(p: Prefix) { p.Under(prefix) && lo <= |p.net| <= hi }
  }

  function NewPrefixRange(p: Prefix, lo: int, hi: int): (r: Option<PrefixRange>)
    ensures r.Some? ==> r.value.Valid() && !r.value.IsEmpty()
    ensures forall q: Prefix :: q.Valid() ==>
              ((r.Some? && r.value.Denotes(q)) <==> (q.Under(p) && lo <= |q.net| <= hi))
  {
    if !p.Valid() then None
    else
      var l, h := Max(lo, |p.net|), Min(hi, Width(p.family));
      if l > h then None else Some(PrefixRange(p, l, h))
  }

  /** The prefixes both ranges denote, as a range; there are some only if one base is under the other. */
  function Intersect(r: PrefixRange, s: PrefixRange): (t: Option<PrefixRange>)
    requires r.Valid() && s.Valid()
    ensures t.Some? ==> t.value.Valid() && !t.value.IsEmpty()
    ensures t.Some? ==> t.value.prefix == r.prefix || t.value.prefix == s.prefix
    ensures t.Some? ==> r.prefix.Under(s.prefix) || s.prefix.Under(r.prefix)
    ensures forall q: Prefix :: (t.Some? && t.value.Denotes(q)) <==> (r.Denotes(q) && s.Denotes(q))
  {
    if r.IsEmpty() || s.IsEmpty() then None else
    var base := if |s.prefix.net| > |r.prefix.net| then s.prefix else r.prefix;
    if !base.Under(r.prefix) || !base.Under(s.prefix) then
      assert forall q: Prefix :: !(r.Denotes(q) && s.Denotes(q)) by {
        forall q: Prefix | r.Denotes(q) && s.Denotes(q) ensures false { CommonNests(r.prefix, s.prefix, q); }
      }
      None
    else
      var lo := Max(Max(r.lo, s.lo), |base.net|);
      var hi := Min(r.hi, s.hi);
      assert forall q: Prefix :: r.Denotes(q) && s.Denotes(q) ==> q.Under(base);
      if lo > hi then None else Some(PrefixRange(base, lo, hi))
  }

  lemma CommonNests(a: Prefix, b: Prefix, q: Prefix)
    requires q.Under(a) && q.Under(b)
    ensures |a.net| <= |b.net| ==> b.Under(a)
    ensures |b.net| <= |a.net| ==> a.Under(b)
  {
    assert a.net == q.net[..|a.net|] && b.net == q.net[..|b.net|];
  }

  function Exact(p: Prefix): (r: PrefixRange)
    requires p.Valid()
    ensures r.Valid() && !r.IsEmpty() && forall q: Prefix :: r.Denotes(q) <==> q == p
  {
    assert forall q: Prefix :: q.Under(p) && |q.net| == |p.net| ==> q == p;
    PrefixRange(p, |p.net|, |p.net|)
  }

  /** A set of ranges denotes what any of them does. */
  ghost predicate RangesDenote(rs: set<PrefixRange>, q: Prefix) { exists r :: r in rs && r.Denotes(q) }

  lemma UnionDenotes(a: set<PrefixRange>, b: set<PrefixRange>, q: Prefix)
    ensures RangesDenote(a + b, q) <==> RangesDenote(a, q) || RangesDenote(b, q)
  {
    if RangesDenote(a, q) {
      var r :| r in a && r.Denotes(q);
      assert r in a + b;
    }
    if RangesDenote(b, q) {
      var r :| r in b && r.Denotes(q);
      assert r in a + b;
    }
  }

  /** The address family an expansion is limited to, if any. */
  datatype Afi = AfiAny | AfiV4 | AfiV6 {
    predicate Allows(f: Family) { AfiAny? || (AfiV4? && f.V4?) || (AfiV6? && f.V6?) }
  }

  // ---- range operators ----

  datatype RangeOp = RangeExact | RangeMinus | RangePlus | RangeLength | RangeRange

  /** The fields n and m are read for RangeLength and RangeRange only. */
  datatype RangeOperator = RangeOperator(op: RangeOp, n: nat, m: nat) {
    predicate IsZero() { op.RangeExact? }

    /** The operator on a single prefix p: the prefixes q it yields (section 2 of RFC 2622). */
    predicate Yields(p: Prefix, q: Prefix) {
      q.Valid() && q.Under(p) &&
      match op
      case RangeExact => q == p
      case RangePlus => true
      case RangeMinus => |q.net| > |p.net|
      case _ => n <= |q.net| <= m
    }

    /** The window the operator gives ranges whose shortest length is k, in a family w bits wide. */
    function Bounds(k: nat, w: nat): (int, int) {
      var (n', m') := match op
        case RangePlus => (k, w)
        case RangeMinus => (k + 1, w)
        case _ => (n, m);
      (Max(n', k), Min(m', w))
    }

    function Apply(r: PrefixRange): (t: Option<PrefixRange>)
      requires r.Valid()
      ensures t.Some? ==> t.value.Valid() && t.value.prefix == r.prefix
      ensures t.Some? && !IsZero() ==> !t.value.IsEmpty()
    {
      if IsZero() then Some(r) else
      var (lo, hi) := Bounds(r.lo, Width(r.prefix.family));
      if lo > hi then None else NewPrefixRange(r.prefix, lo, hi)
    }
  }

  /** The operators of section 2 of RFC 2622: ^+ yields a prefix and its more specifics, ^- the same without it, ^n
      and ^n-m those of the lengths given, and no operator the prefix alone. */
  lemma {:induction false} OperatorLaws(p: Prefix, q: Prefix, n: nat, m: nat)
    requires p.Valid()
    ensures RangeOperator(RangePlus, n, m).Yields(p, q) <==> q.Valid() && q.Under(p)
    ensures RangeOperator(RangeMinus, n, m).Yields(p, q) <==> RangeOperator(RangePlus, n, m).Yields(p, q) && q != p
    ensures RangeOperator(RangeRange, n, m).Yields(p, q) <==>
            RangeOperator(RangePlus, n, m).Yields(p, q) && n <= |q.net| <= m
    ensures RangeOperator(RangeLength, n, n).Yields(p, q) <==>
            RangeOperator(RangePlus, n, n).Yields(p, q) && |q.net| == n
    ensures RangeOperator(RangeExact, n, m).Yields(p, q) <==> q == p
  {
    if q.Under(p) && |q.net| <= |p.net| { assert q.net == p.net; }
  }

  /** A prefix is of one family, and every prefix is wanted when any is. */
  lemma {:induction false} AfiSplits(f: Family)
    ensures AfiAny.Allows(f) && (AfiV4.Allows(f) <==> !AfiV6.Allows(f)) && AfiV4.Allows(V4) && AfiV6.Allows(V6)
  {
  }

  predicate AppliedDenotes(o: RangeOperator, r: PrefixRange, q: Prefix)
    requires r.Valid()
  {
    var t := o.Apply(r);
    t.Some? && t.value.Denotes(q)
  }

  /** The union, over the prefixes of r, of what o yields of each. */
  ghost predicate YieldedFrom(o: RangeOperator, r: PrefixRange, q: Prefix)
  {
    exists p: Prefix :: r.Denotes(p) && o.Yields(p, q)
  }

  lemma YieldedIntro(o: RangeOperator, r: PrefixRange, p: Prefix, q: Prefix)
    requires r.Denotes(p) && o.Yields(p, q)
    ensures YieldedFrom(o, r, q)
  {
  }

  /** One Apply denotes exactly the union of the operator applied to each prefix of the range. */
  lemma ApplyDenotesUnion(o: RangeOperator, r: PrefixRange, q: Prefix)
    requires r.Valid() && !r.IsEmpty() && q.Valid()
    ensures AppliedDenotes(o, r, q) <==> YieldedFrom(o, r, q)
  {
    if AppliedDenotes(o, r, q) {
      if o.IsZero() {
        YieldedIntro(o, r, q, q);
      } else {
        var p := Prefix(q.family, q.net[..r.lo]);
        assert q.Under(p) && p.Under(r.prefix);
        YieldedIntro(o, r, p, q);
      }
    }
    if YieldedFrom(o, r, q) {
      var p: Prefix :| r.Denotes(p) && o.Yields(p, q);
      assert q.Under(r.prefix);
    }
  }

  // ---- address order ----

  function Zeros(n: nat): seq<bool> { seq(n, _ => false) }

  function Ones(n: nat): seq<bool> { seq(n, _ => true) }

  /** The prefix's address: its network bits padded with zero host bits. */
  function Address(p: Prefix): (a: seq<bool>)
    requires p.Valid()
    ensures |a| == Width(p.family)
  {
    p.net + Zeros(Width(p.family) - |p.net|)
  }

  /** Big-endian comparison of addresses of one family. */
  predicate AddressLess(a: seq<bool>, b: seq<bool>) {
    exists i :: 0 <= i < |a| && i < |b| && a[..i] == b[..i] && !a[i] && b[i]
  }

  /** By address (IPv4 before IPv6), then by length (resolve/expand_more.go:832-838). */
  predicate PrefixLess(p: Prefix, q: Prefix)
    requires p.Valid() && q.Valid()
  {
    if p.family != q.family then p.family.V4?
    else AddressLess(Address(p), Address(q)) || (Address(p) == Address(q) && |p.net| < |q.net|)
  }

  lemma AddressLessIntro(a: seq<bool>, b: seq<bool>, i: nat)
    requires i < |a| && i < |b| && a[..i] == b[..i] && !a[i] && b[i]
    ensures AddressLess(a, b)
  {
  }

  /** The first position where two addresses differ. */
  lemma {:induction false} FirstDifference(a: seq<bool>, b: seq<bool>, from: nat) returns (i: nat)
    requires |a| == |b| && a != b && from <= |a| && a[..from] == b[..from]
    ensures i < |a| && a[..i] == b[..i] && a[i] != b[i]
    decreases |a| - from
  {
    assert a == a[..|a|] && b == b[..|b|];
    if from == |a| {
      assert false;
    } else if a[from] != b[from] {
      i := from;
    } else {
      assert a[..from + 1] == a[..from] + [a[from]] && b[..from + 1] == b[..from] + [b[from]];
      i := FirstDifference(a, b, from + 1);
    }
  }

  lemma AddressTrichotomy(a: seq<bool>, b: seq<bool>)
    requires |a| == |b|
    ensures a == b || AddressLess(a, b) || AddressLess(b, a)
    ensures !(AddressLess(a, b) && AddressLess(b, a)) && !AddressLess(a, a)
  {
    if a != b {
      var i := FirstDifference(a, b, 0);
      if a[i] { AddressLessIntro(b, a, i); } else { AddressLessIntro(a, b, i); }
    }
    if AddressLess(a, b) {
      var i :| 0 <= i < |a| && a[..i] == b[..i] && !a[i] && b[i];
      forall j | 0 <= j < |a| ensures !(b[..j] == a[..j] && !b[j] && a[j]) {
        if i < j { assert a[..j][i] != b[..j][i]; } else if j < i { assert a[..i][j] == b[..i][j]; }
      }
    }
  }

  lemma AddressLessTransitive(a: seq<bool>, b: seq<bool>, c: seq<bool>)
    requires |a| == |b| == |c| && AddressLess(a, b) && AddressLess(b, c)
    ensures AddressLess(a, c)
  {
    var i :| 0 <= i < |a| && a[..i] == b[..i] && !a[i] && b[i];
    var j :| 0 <= j < |b| && b[..j] == c[..j] && !b[j] && c[j];
    var k := Min(i, j);
    assert a[..k] == a[..i][..k] && b[..k] == b[..i][..k] && b[..k] == b[..j][..k] && c[..k] == c[..j][..k];
    if i < j { assert b[..j][i] == c[..j][i]; } else if j < i { assert a[..i][j] == b[..i][j]; }
    AddressLessIntro(a, c, k);
  }

  lemma PrefixLessTransitive(p: Prefix, q: Prefix, r: Prefix)
    requires p.Valid() && q.Valid() && r.Valid() && PrefixLess(p, q) && PrefixLess(q, r)
    ensures PrefixLess(p, r)
  {
    if p.family == q.family == r.family && AddressLess(Address(p), Address(q)) && AddressLess(Address(q), Address(r)) {
      AddressLessTransitive(Address(p), Address(q), Address(r));
    }
  }

  lemma AddressInjective(p: Prefix, q: Prefix)
    requires p.Valid() && q.Valid() && p.family == q.family && |p.net| == |q.net| && Address(p) == Address(q)
    ensures p == q
  {
    assert p.net == Address(p)[..|p.net|] && q.net == Address(q)[..|q.net|];
  }

  lemma PrefixLessTotal(p: Prefix, q: Prefix)
    requires p.Valid() && q.Valid()
    ensures p == q || PrefixLess(p, q) || PrefixLess(q, p)
    ensures !(PrefixLess(p, q) && PrefixLess(q, p)) && !PrefixLess(p, p)
  {
    AddressTrichotomy(Address(p), Address(p));
    if p.family == q.family {
      AddressTrichotomy(Address(p), Address(q));
      if Address(p) == Address(q) && |p.net| == |q.net| { AddressInjective(p, q); }
    }
  }

  /** A prefix comes before everything strictly under it. */
  lemma ShorterFirst(p: Prefix, q: Prefix)
    requires p.Valid() && q.Valid() && q.Under(p) && q != p
    ensures PrefixLess(p, q)
  {
    var a, b := Address(p), Address(q);
    if a == b {
      if |p.net| == |q.net| { AddressInjective(p, q); }
    } else {
      var i := FirstDifference(a, b, 0);
      assert forall k :: 0 <= k < |p.net| ==> a[k] == b[k];
      AddressLessIntro(a, b, i);
    }
  }

  /** Everything under the zero child comes before everything under the one child. */
  lemma ZeroBeforeOne(base: Prefix, p: Prefix, q: Prefix)
    requires p.Valid() && q.Valid()
    requires p.Under(Prefix(base.family, base.net + [false])) && q.Under(Prefix(base.family, base.net + [true]))
    ensures PrefixLess(p, q)
  {
    var n := |base.net|;
    assert p.net[..n] == (base.net + [false])[..n] == base.net && p.net[n] == (base.net + [false])[n];
    assert q.net[..n] == (base.net + [true])[..n] == base.net && q.net[n] == (base.net + [true])[n];
    assert Address(p)[..n] == base.net == Address(q)[..n];
    AddressLessIntro(Address(p), Address(q), n);
  }
}
