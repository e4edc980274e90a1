/** Pairing the ranges of two sets by prefix, and intersecting them (resolve/expand_more.go:760-838). */
module RangeIndex {
  import opened Prefixes

  type Ranges = set<PrefixRange>

  predicate AllValid(a: Ranges) { forall r :: r in a ==> r.Valid() }

  predicate Nested(x: PrefixRange, y: PrefixRange) { x.prefix.Under(y.prefix) || y.prefix.Under(x.prefix) }

  // ---- the prefixes of a set, in order ----

  predicate Sorted(ps: seq<Prefix>) {
    (forall i :: 0 <= i < |ps| ==> ps[i].Valid()) && forall i, j :: 0 <= i < j < |ps| ==> PrefixLess(ps[i], ps[j])
  }

  function InsertSorted(ps: seq<Prefix>, p: Prefix): (qs: seq<Prefix>)
    requires Sorted(ps) && p.Valid()
    ensures forall q :: q in qs <==> q in ps || q == p
  {
    if ps == [] then [p]
    else
      assert ps == [ps[0]] + ps[1..];
      if PrefixLess(p, ps[0]) then [p] + ps else [ps[0]] + InsertSorted(ps[1..], p)
  }

  lemma SortedCons(p: Prefix, ps: seq<Prefix>)
    requires p.Valid() && Sorted(ps) && forall q :: q in ps ==> PrefixLess(p, q)
    ensures Sorted([p] + ps)
  {
    var qs := [p] + ps;
    forall i, j | 0 <= i < j < |qs| ensures PrefixLess(qs[i], qs[j]) {
      assert qs[j] == ps[j - 1] && ps[j - 1] in ps;
      if i > 0 { assert qs[i] == ps[i - 1]; }
    }
  }

  lemma {:induction false} InsertKeepsSorted(ps: seq<Prefix>, p: Prefix)
    requires Sorted(ps) && p.Valid() && p !in ps
    ensures Sorted(InsertSorted(ps, p))
  {
    if ps != [] {
      PrefixLessTotal(p, ps[0]);
      if PrefixLess(p, ps[0]) {
        forall q | q in ps ensures PrefixLess(p, q) {
          if q != ps[0] { PrefixLessTransitive(p, ps[0], q); }
        }
        SortedCons(p, ps);
      } else {
        InsertKeepsSorted(ps[1..], p);
        SortedCons(ps[0], InsertSorted(ps[1..], p));
      }
    }
  }

  /** sort.Slice on the distinct prefixes. */
  method SortPrefixes(s: set<Prefix>) returns (ps: seq<Prefix>)
    requires forall p :: p in s ==> p.Valid()
    ensures Sorted(ps) && forall p :: p in ps <==> p in s
  {
    ps := [];
    var left := s;
    while left != {}
      invariant left <= s && Sorted(ps) && forall p :: p in ps <==> p in s - left
      decreases left
    {
      var p :| p in left;
      InsertKeepsSorted(ps, p);
      ps := InsertSorted(ps, p);
      left := left - {p};
    }
  }

  /** sort.Search: the first position not before p. */
  method Search(ps: seq<Prefix>, p: Prefix) returns (i: nat)
    requires Sorted(ps) && p.Valid()
    ensures i <= |ps| && (forall k :: 0 <= k < i ==> PrefixLess(ps[k], p)) &&
            forall k :: i <= k < |ps| ==> !PrefixLess(ps[k], p)
  {
    var hi := |ps|;
    i := 0;
    while i < hi
      invariant i <= hi <= |ps|
      invariant forall k :: 0 <= k < i ==> PrefixLess(ps[k], p)
      invariant forall k :: hi <= k < |ps| ==> !PrefixLess(ps[k], p)
    {
      var mid := (i + hi) / 2;
      if PrefixLess(ps[mid], p) {
        forall k | 0 <= k < mid ensures PrefixLess(ps[k], p) { PrefixLessTransitive(ps[k], ps[mid], p); }
        i := mid + 1;
      } else {
        forall k | mid < k < |ps| ensures !PrefixLess(ps[k], p) {
          if PrefixLess(ps[k], p) { PrefixLessTransitive(ps[mid], ps[k], p); }
        }
        hi := mid;
      }
    }
  }

  // ---- the descendants of a prefix are one run of the order ----

  /** The last address of p: every host bit set (types.LastAddr). */
  function LastAddr(p: Prefix): (a: seq<bool>)
    requires p.Valid()
    ensures |a| == Width(p.family)
  {
    p.net + Ones(Width(p.family) - |p.net|)
  }

  /** q's address is at or before the last address of p, IPv4 being before IPv6. */
  predicate StartsBy(q: Prefix, p: Prefix)
    requires p.Valid() && q.Valid()
  {
    if q.family != p.family then q.family.V4? else !AddressLess(LastAddr(p), Address(q))
  }

  lemma UnderStartsBy(q: Prefix, p: Prefix)
    requires p.Valid() && q.Valid() && q.Under(p)
    ensures StartsBy(q, p)
  {
    var a, b := LastAddr(p), Address(q);
    assert forall i :: 0 <= i < |a| ==> a[i] || a[i] == b[i];
  }

  /** An address between the first and the last of p is under p. */
  lemma BetweenIsUnder(q: Prefix, p: Prefix)
    requires p.Valid() && q.Valid() && q.family == p.family && |p.net| <= |q.net|
    requires !AddressLess(Address(q), Address(p)) && !AddressLess(LastAddr(p), Address(q))
    ensures q.Under(p)
  {
    var n, a := |p.net|, Address(q);
    assert q.net[..n] == a[..n];
    if a[..n] != p.net { OutsideIfNotUnder(q, p); }
  }

  lemma OutsideIfNotUnder(q: Prefix, p: Prefix)
    requires p.Valid() && q.Valid() && q.family == p.family && |p.net| <= |q.net| && Address(q)[..|p.net|] != p.net
    ensures AddressLess(Address(q), Address(p)) || AddressLess(LastAddr(p), Address(q))
  {
    var n, a, z, o := |p.net|, Address(q), Address(p), LastAddr(p);
    var i := FirstDifference(a[..n], p.net, 0);
    assert a[..n][..i] == a[..i] && z[..i] == p.net[..i] && o[..i] == p.net[..i];
    if a[i] { AddressLessIntro(o, a, i); } else { AddressLessIntro(a, z, i); }
  }

  lemma StartsByDown(q: Prefix, r: Prefix, p: Prefix)
    requires p.Valid() && q.Valid() && r.Valid() && PrefixLess(q, r) && StartsBy(r, p)
    ensures StartsBy(q, p)
  {
    if q.family == r.family == p.family && AddressLess(LastAddr(p), Address(q)) && AddressLess(Address(q), Address(r)) {
      AddressLessTransitive(LastAddr(p), Address(q), Address(r));
    }
  }

  /** i is the first position of ps not before p. */
  predicate FirstNotBefore(ps: seq<Prefix>, p: Prefix, i: nat)
    requires Sorted(ps) && p.Valid()
  {
    i <= |ps| && (forall j :: 0 <= j < i ==> PrefixLess(ps[j], p)) &&
      forall j :: i <= j < |ps| ==> !PrefixLess(ps[j], p)
  }

  /** Scanning from there, while addresses are at most p's last, finds exactly p's descendants. */
  lemma ScanFindsDescendants(ps: seq<Prefix>, p: Prefix, i: nat, k: nat)
    requires Sorted(ps) && p.Valid() && k < |ps| && FirstNotBefore(ps, p, i)
    ensures ps[k].Under(p) && ps[k] != p <==> i <= k && StartsBy(ps[k], p) && |ps[k].net| > |p.net|
  {
    var q := ps[k];
    assert q.Under(p) && |q.net| == |p.net| ==> q == p;
    if q.Under(p) && q != p {
      ShorterFirst(p, q);
      PrefixLessTotal(p, q);
      UnderStartsBy(q, p);
    }
    if i <= k && StartsBy(q, p) && |q.net| > |p.net| && q.family == p.family {
      BetweenIsUnder(q, p);
    }
  }

  // ---- pairing ----

  function AtPrefix(b: Ranges, p: Prefix): Ranges { set y | y in b && y.prefix == p }

  function PrefixesOf(b: Ranges): set<Prefix> { set y | y in b :: y.prefix }

  /** byPrefix: the ranges of b by their base prefix. */
  method IndexByPrefix(b: Ranges) returns (index: map<Prefix, Ranges>)
    ensures index.Keys == PrefixesOf(b) && forall p :: p in index ==> index[p] == AtPrefix(b, p)
  {
    index := map[];
    var left := b;
    while left != {}
      invariant left <= b && index.Keys == PrefixesOf(b - left)
      invariant forall p :: p in index ==> index[p] == AtPrefix(b - left, p)
      decreases left
    {
      var y :| y in left;
      var had := if y.prefix in index then index[y.prefix] else {};
      assert had == AtPrefix(b - left, y.prefix);
      index := index[y.prefix := had + {y}];
      assert b - (left - {y}) == (b - left) + {y};
      left := left - {y};
    }
    assert b - left == b;
  }

  /** The ranges of b whose prefixes are x's or above it, looked up length by length. */
  method Ancestors(x: Prefix, ghost b: Ranges, index: map<Prefix, Ranges>) returns (ys: Ranges)
    requires index.Keys == PrefixesOf(b) && forall p :: p in index ==> index[p] == AtPrefix(b, p)
    ensures forall y :: y in ys <==> y in b && x.Under(y.prefix)
  {
    ys := {};
    var bits := |x.net|;
    while bits >= 0
      invariant -1 <= bits <= |x.net|
      invariant forall y :: y in ys <==> y in b && x.Under(y.prefix) && |y.prefix.net| > bits
    {
      var p := Prefix(x.family, x.net[..bits]);
      assert forall y: PrefixRange :: x.Under(y.prefix) && |y.prefix.net| == bits <==> y.prefix == p;
      if p in index { ys := ys + index[p]; }
      bits := bits - 1;
    }
  }

  /** The ranges of b whose prefixes are strictly under x, from one run of the sorted prefixes. */
  method Descendants(x: Prefix, ghost b: Ranges, index: map<Prefix, Ranges>, ps: seq<Prefix>) returns (ys: Ranges)
    requires x.Valid() && AllValid(b) && Sorted(ps) && (forall p :: p in ps <==> p in PrefixesOf(b))
    requires index.Keys == PrefixesOf(b) && forall p :: p in index ==> index[p] == AtPrefix(b, p)
    ensures forall y :: y in ys <==> y in b && y.prefix.Under(x) && y.prefix != x
  {
    var qs := ScanRun(x, ps);
    ys := set q, y | q in qs && q in index && y in index[q] :: y;
    forall y | y in b && y.prefix.Under(x) && y.prefix != x ensures y in ys {
      assert y.prefix in PrefixesOf(b);
      assert y.prefix in qs && y in AtPrefix(b, y.prefix);
    }
  }

  /** The run: from the binary search's answer, while addresses are at most x's last. */
  method ScanRun(x: Prefix, ps: seq<Prefix>) returns (qs: set<Prefix>)
    requires x.Valid() && Sorted(ps)
    ensures forall q :: q in qs <==> q in ps && q.Under(x) && q != x
  {
    var first := Search(ps, x);
    var i := first;
    qs := {};
    while i < |ps| && StartsBy(ps[i], x)
      invariant first <= i <= |ps|
      invariant forall q :: q in qs <==> exists k :: first <= k < i && ps[k] == q && q.Under(x) && q != x
    {
      ScanFindsDescendants(ps, x, first, i);
      if |ps[i].net| > |x.net| { qs := qs + {ps[i]}; }
      i := i + 1;
    }
    forall k | 0 <= k < |ps| && ps[k].Under(x) && ps[k] != x ensures first <= k < i {
      ScanFindsDescendants(ps, x, first, k);
      if i < k { StartsByDown(ps[i], ps[k], x); }
    }
  }

  type Pairs = set<(PrefixRange, PrefixRange)>

  /** pairs visits exactly the pairs whose prefixes nest. */
  method NestingPairs(a: Ranges, b: Ranges) returns (visited: Pairs)
    requires AllValid(a) && AllValid(b)
    ensures forall x, y :: (x, y) in visited <==> x in a && y in b && Nested(x, y)
  {
    var index := IndexByPrefix(b);
    var ps := SortPrefixes(index.Keys);
    visited := {};
    var left := a;
    while left != {}
      invariant left <= a
      invariant forall x, y :: (x, y) in visited <==> x in a - left && y in b && Nested(x, y)
      decreases left
    {
      var x :| x in left;
      var up := Ancestors(x.prefix, b, index);
      var down := Descendants(x.prefix, b, index, ps);
      visited := visited + (set y | y in up + down :: (x, y));
      left := left - {x};
    }
  }

  /** All non-empty pairwise intersections. */
  function PairwiseIntersections(a: Ranges, b: Ranges): (c: Ranges)
    requires AllValid(a) && AllValid(b)
    ensures AllValid(c) && forall r :: r in c ==> !r.IsEmpty()
  {
    set x, y | x in a && y in b && Intersect(x, y).Some? :: Intersect(x, y).value
  }

  lemma IntersectionsDenote(a: Ranges, b: Ranges, q: Prefix)
    requires AllValid(a) && AllValid(b)
    ensures RangesDenote(PairwiseIntersections(a, b), q) <==> RangesDenote(a, q) && RangesDenote(b, q)
  {
    var c := PairwiseIntersections(a, b);
    if RangesDenote(a, q) && RangesDenote(b, q) {
      var x :| x in a && x.Denotes(q);
      var y :| y in b && y.Denotes(q);
      assert Intersect(x, y).Some? && Intersect(x, y).value.Denotes(q);
      assert Intersect(x, y).value in c;
    }
    if RangesDenote(c, q) {
      var z :| z in c && z.Denotes(q);
      var x, y :| x in a && y in b && Intersect(x, y).Some? && Intersect(x, y).value == z;
      assert x.Denotes(q) && y.Denotes(q);
    }
  }

  /** The indexed intersection is the pairwise one, so it denotes exactly the common prefixes. */
  method IntersectRanges(a: Ranges, b: Ranges) returns (c: Ranges)
    requires AllValid(a) && AllValid(b)
    ensures c == PairwiseIntersections(a, b)
    ensures forall q: Prefix :: RangesDenote(c, q) <==> RangesDenote(a, q) && RangesDenote(b, q)
  {
    var visited := NestingPairs(a, b);
    assert forall pr :: pr in visited ==> (pr.0, pr.1) in visited;
    c := set pr | pr in visited && pr.0.Valid() && pr.1.Valid() &&
      Intersect(pr.0, pr.1).Some? :: Intersect(pr.0, pr.1).value;
    assert c == PairwiseIntersections(a, b) by {
      forall x, y | x in a && y in b && Intersect(x, y).Some? ensures Intersect(x, y).value in c {
        assert (x, y) in visited;
      }
    }
    forall q: Prefix ensures RangesDenote(c, q) <==> RangesDenote(a, q) && RangesDenote(b, q) {
      IntersectionsDenote(a, b, q);
    }
  }
}
