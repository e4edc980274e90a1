/** The prefixes of a range, one by one (types/prefixrange.go:182-256). */
module RangePrefixes {
  import opened Prefixes
  import opened Words

  // ---- bits as numbers ----

  /** The low n bits of v, the most significant first. */
  function BitsOf(v: nat, n: nat): (b: seq<bool>)
    requires v < Pow2(n)
    ensures |b| == n
  {
    if n == 0 then []
    else if v < Pow2(n - 1) then [false] + BitsOf(v, n - 1)
    else [true] + BitsOf(v - Pow2(n - 1), n - 1)
  }

  function Val(b: seq<bool>): (v: nat)
    ensures v < Pow2(|b|)
  {
    if b == [] then 0 else (if b[0] then Pow2(|b| - 1) else 0) + Val(b[1..])
  }

  lemma {:induction false} BitsOfVal(b: seq<bool>)
    ensures BitsOf(Val(b), |b|) == b
    decreases |b|
  {
    if b != [] {
      BitsOfVal(b[1..]);
      assert b == [b[0]] + b[1..];
    }
  }

  lemma {:induction false} ValZeros(n: nat)
    ensures Val(Zeros(n)) == 0 && Val(Ones(n)) == Pow2(n) - 1
  {
    if n > 0 {
      ValZeros(n - 1);
      assert Zeros(n)[1..] == Zeros(n - 1) && Ones(n)[1..] == Ones(n - 1);
    }
  }

  /** Adding one clears the ones at the end and sets the zero before them. */
  lemma {:induction false} Carry(pre: seq<bool>, m: nat)
    ensures Val(pre + [true] + Zeros(m)) == Val(pre + [false] + Ones(m)) + 1
    decreases |pre|
  {
    var x, y := pre + [false] + Ones(m), pre + [true] + Zeros(m);
    if pre == [] {
      assert x[1..] == Ones(m) && y[1..] == Zeros(m);
      ValZeros(m);
    } else {
      Carry(pre[1..], m);
      assert x[1..] == pre[1..] + [false] + Ones(m) && y[1..] == pre[1..] + [true] + Zeros(m);
    }
  }

  /** Of two numbers, the smaller has a zero where their bits first differ. */
  lemma {:induction false} BitsOrdered(v: nat, w: nat, n: nat) returns (i: nat)
    requires v < w < Pow2(n)
    ensures i < n && BitsOf(v, n)[..i] == BitsOf(w, n)[..i] && !BitsOf(v, n)[i] && BitsOf(w, n)[i]
    decreases n
  {
    var a, b := BitsOf(v, n), BitsOf(w, n);
    var half := Pow2(n - 1);
    if v < half <= w {
      i := 0;
    } else {
      i := BitsOrdered(if v < half then v else v - half, if v < half then w else w - half, n - 1);
      assert a[..i + 1] == [a[0]] + a[1..][..i] && b[..i + 1] == [b[0]] + b[1..][..i];
      i := i + 1;
    }
  }

  // ---- the listing ----

  /** The k-th prefix of length l under p. */
  function Kth(p: Prefix, l: nat, k: nat): Prefix
    requires |p.net| <= l && k < Pow2(l - |p.net|)
  {
    Prefix(p.family, p.net + BitsOf(k, l - |p.net|))
  }

  function AtLength(p: Prefix, l: nat): (qs: seq<Prefix>)
    requires |p.net| <= l
    ensures |qs| == Pow2(l - |p.net|)
  {
    seq(Pow2(l - |p.net|), k requires 0 <= k < Pow2(l - |p.net|) => Kth(p, l, k))
  }

  /** Every prefix of length l to hi under p, length by length, each length by address. */
  function Listing(p: Prefix, l: nat, hi: nat): seq<Prefix>
    requires |p.net| <= l
    decreases hi + 1 - l
  {
    if l > hi then [] else AtLength(p, l) + Listing(p, l + 1, hi)
  }

  function Count(p: Prefix, l: nat, hi: nat): nat
    requires |p.net| <= l
    decreases hi + 1 - l
  {
    if l > hi then 0 else Pow2(l - |p.net|) + Count(p, l + 1, hi)
  }

  lemma {:induction false} ListingCount(p: Prefix, l: nat, hi: nat)
    requires |p.net| <= l
    ensures |Listing(p, l, hi)| == Count(p, l, hi)
    decreases hi + 1 - l
  {
    if l <= hi { ListingCount(p, l + 1, hi); }
  }

  lemma {:induction false} AtLengthHas(p: Prefix, l: nat, q: Prefix)
    requires |p.net| <= l
    ensures q in AtLength(p, l) <==> q.Under(p) && |q.net| == l
  {
    if q.Under(p) && |q.net| == l { IsKth(p, q); }
  }

  lemma {:induction false} IsKth(p: Prefix, q: Prefix)
    requires q.Under(p)
    ensures q in AtLength(p, |q.net|)
  {
    var rest := q.net[|p.net|..];
    BitsOfVal(rest);
    assert q.net == p.net + rest;
    assert AtLength(p, |q.net|)[Val(rest)] == q;
  }

  /** The listing holds exactly the prefixes of the range. */
  lemma {:induction false} ListingHas(p: Prefix, l: nat, hi: nat, q: Prefix)
    requires |p.net| <= l
    ensures q in Listing(p, l, hi) <==> q.Under(p) && l <= |q.net| <= hi
    decreases hi + 1 - l
  {
    if l <= hi {
      AtLengthHas(p, l, q);
      ListingHas(p, l + 1, hi, q);
    }
  }

  predicate InOrder(p: Prefix, q: Prefix)
    requires p.Valid() && q.Valid()
  {
    |p.net| < |q.net| || (|p.net| == |q.net| && PrefixLess(p, q))
  }

  lemma {:induction false} KthOrdered(p: Prefix, l: nat, j: nat, k: nat)
    requires |p.net| <= l <= Width(p.family) && j < k < Pow2(l - |p.net|)
    ensures PrefixLess(Kth(p, l, j), Kth(p, l, k))
  {
    var i := BitsOrdered(j, k, l - |p.net|);
    KthBits(p, l, j, i);
    KthBits(p, l, k, i);
    AddressLessIntro(Address(Kth(p, l, j)), Address(Kth(p, l, k)), |p.net| + i);
  }

  lemma {:induction false} KthBits(p: Prefix, l: nat, k: nat, i: nat)
    requires |p.net| <= l <= Width(p.family) && k < Pow2(l - |p.net|) && i < l - |p.net|
    ensures var a, bits := Address(Kth(p, l, k)), BitsOf(k, l - |p.net|);
            a[..|p.net| + i] == p.net + bits[..i] && a[|p.net| + i] == bits[i]
  {
    Padded(p.net, BitsOf(k, l - |p.net|), Zeros(Width(p.family) - l), i);
  }

  lemma {:induction false} Padded<T>(net: seq<T>, bits: seq<T>, pad: seq<T>, i: nat)
    requires i < |bits|
    ensures (net + bits + pad)[..|net| + i] == net + bits[..i] && (net + bits + pad)[|net| + i] == bits[i]
  {
  }

  /** It lists shorter prefixes first and, within a length, lower ones; so no prefix twice. */
  lemma {:induction false} ListingOrdered(p: Prefix, l: nat, hi: nat, i: nat, j: nat)
    requires |p.net| <= l && hi <= Width(p.family) && i < j < |Listing(p, l, hi)|
    ensures var qs := Listing(p, l, hi); qs[i].Valid() && qs[j].Valid() && InOrder(qs[i], qs[j])
    decreases hi + 1 - l
  {
    var here, rest := AtLength(p, l), Listing(p, l + 1, hi);
    InJoin(here, rest, i);
    InJoin(here, rest, j);
    if i >= |here| {
      ListingOrdered(p, l + 1, hi, i - |here|, j - |here|);
    } else if j < |here| {
      OneLength(p, l, i, j);
    } else {
      LongerLater(p, l, hi, i, j - |here|);
    }
  }

  lemma {:induction false} InJoin<T>(a: seq<T>, b: seq<T>, i: nat)
    requires i < |a + b|
    ensures (a + b)[i] == if i < |a| then a[i] else b[i - |a|]
  {
  }

  lemma {:induction false} OneLength(p: Prefix, l: nat, i: nat, j: nat)
    requires |p.net| <= l <= Width(p.family) && i < j < |AtLength(p, l)|
    ensures var a, b := AtLength(p, l)[i], AtLength(p, l)[j]; a.Valid() && b.Valid() && InOrder(a, b)
  {
    KthOrdered(p, l, i, j);
  }

  lemma {:induction false} LongerLater(p: Prefix, l: nat, hi: nat, i: nat, j: nat)
    requires |p.net| <= l < hi <= Width(p.family) && i < |AtLength(p, l)| && j < |Listing(p, l + 1, hi)|
    ensures var a, b := AtLength(p, l)[i], Listing(p, l + 1, hi)[j]; a.Valid() && b.Valid() && InOrder(a, b)
  {
    var b := Listing(p, l + 1, hi)[j];
    assert b in Listing(p, l + 1, hi);
    ListingHas(p, l + 1, hi, b);
  }

  // ---- the enumeration over an address buffer ----

  /** increment: one is added to the bits from start to end of the buffer; false when they were all ones,
      and are all zero again. */
  method Increment(b: array<bool>, start: nat, end: nat) returns (more: bool)
    requires start <= end <= b.Length
    modifies b
    ensures b[..start] == old(b[..start]) && b[end..] == old(b[end..])
    ensures more <==> Val(old(b[start..end])) + 1 < Pow2(end - start)
    ensures more ==> Val(b[start..end]) == Val(old(b[start..end])) + 1
    ensures !more ==> b[start..end] == Zeros(end - start)
  {
    ghost var was := b[..];
    var pos := end;
    while pos > start
      invariant start <= pos <= end
      invariant forall i :: 0 <= i < b.Length ==> b[i] == (was[i] && !(pos <= i < end))
      invariant forall i :: pos <= i < end ==> was[i]
    {
      pos := pos - 1;
      if !b[pos] {
        b[pos] := true;
        Carried(was, b[..], start, pos, end);
        assert b[start..end] == b[..][start..end];
        return true;
      }
      b[pos] := false;
    }
    assert was[start..end] == Ones(end - start) && b[start..end] == Zeros(end - start);
    ValZeros(end - start);
    return false;
  }

  lemma {:induction false} Carried(was: seq<bool>, now: seq<bool>, start: nat, pos: nat, end: nat)
    requires start <= pos < end <= |was| == |now| && !was[pos] && now[pos]
    requires forall i :: pos < i < end ==> was[i] && !now[i]
    requires forall i :: 0 <= i < pos ==> now[i] == was[i]
    ensures Val(now[start..end]) == Val(was[start..end]) + 1 < Pow2(end - start)
  {
    var pre, m := was[start..pos], end - pos - 1;
    assert was[start..end] == pre + [false] + Ones(m) && now[start..end] == pre + [true] + Zeros(m);
    Carry(pre, m);
  }

  /** The address of p as a buffer. */
  method Buffer(p: Prefix, l: nat) returns (b: array<bool>)
    requires p.Valid() && |p.net| <= l <= Width(p.family)
    ensures fresh(b) && b.Length == Width(p.family) && b[..|p.net|] == p.net && Val(b[|p.net|..l]) == 0
  {
    var addr := Address(p);
    b := new bool[|addr|](i requires 0 <= i < |addr| => addr[i]);
    assert forall i :: 0 <= i < |addr| ==> b[i] == addr[i];
    assert b[..|p.net|] == p.net && b[|p.net|..l] == Zeros(l - |p.net|);
    ValZeros(l - |p.net|);
  }

  lemma {:induction false} NextYielded(p: Prefix, l: nat, k: nat, bits: seq<bool>)
    requires |p.net| <= l == |bits| && bits[..|p.net|] == p.net && Val(bits[|p.net|..]) == k
    ensures k < Pow2(l - |p.net|) && AtLength(p, l)[..k + 1] == AtLength(p, l)[..k] + [Prefix(p.family, bits)]
  {
    BitsOfVal(bits[|p.net|..]);
    assert bits == bits[..|p.net|] + bits[|p.net|..];
    assert AtLength(p, l)[k] == Kth(p, l, k);
  }

  /** The prefixes of one length, until none is left or the consumer, who wants want more, has had enough. */
  method Yield(p: Prefix, l: nat, want: nat) returns (out: seq<Prefix>)
    requires p.Valid() && |p.net| <= l <= Width(p.family) && want > 0
    ensures out == AtLength(p, l)[..Min(want, Pow2(l - |p.net|))]
  {
    var n := |p.net|;
    var b := Buffer(p, l);
    out := [];
    while true
      invariant b.Length == Width(p.family) && b[..n] == p.net && Val(b[n..l]) == |out| < want
      invariant |out| < Pow2(l - n) && out == AtLength(p, l)[..|out|]
      decreases Pow2(l - n) - |out|
    {
      assert b[..l][..n] == b[..n] && b[..l][n..] == b[n..l];
      NextYielded(p, l, |out|, b[..l]);
      out := out + [Prefix(p.family, b[..l])];
      if |out| == want { return; }
      var more := Increment(b, n, l);
      if !more { return; }
    }
  }

  /** All: the consumer, who stops after want prefixes, has had the first want of the listing. */
  method All(r: PrefixRange, want: nat) returns (out: seq<Prefix>)
    requires r.Valid() && want > 0
    ensures var qs := Listing(r.prefix, r.lo, r.hi); out == qs[..Min(want, |qs|)]
  {
    ghost var all := Listing(r.prefix, r.lo, r.hi);
    out := [];
    var l := r.lo;
    while l <= r.hi
      invariant r.lo <= l && |out| < want && out + Listing(r.prefix, l, r.hi) == all
      decreases r.hi + 1 - l
    {
      ghost var before, here, rest := out, AtLength(r.prefix, l), Listing(r.prefix, l + 1, r.hi);
      var got := Yield(r.prefix, l, want - |out|);
      out := out + got;
      assert before + (here + rest) == all;
      TakeMore(before, here, rest, got, want);
      if |out| == want { return; }
      l := l + 1;
    }
  }

  /** A consumer that had before takes from here, and then from rest if it wants more. */
  lemma {:induction false} TakeMore<T>(before: seq<T>, here: seq<T>, rest: seq<T>, got: seq<T>, want: nat)
    requires |before| < want && got == here[..Min(want - |before|, |here|)]
    ensures if |before + got| == want then before + got == (before + (here + rest))[..want]
            else before + got + rest == before + (here + rest)
    ensures |before + got| <= want
  {
  }

  // ---- Materialize ----

  /** When Materialize lists a range: it is empty, or no longer than the cap with no length of its window 31
      bits or more past its prefix. */
  predicate Materializes(r: PrefixRange, max: int)
    requires r.Valid()
  {
    r.IsEmpty() || (r.hi - |r.prefix.net| < 31 && Count(r.prefix, r.lo, r.hi) <= max)
  }

  /** Materialize: the whole listing, or an error before anything is listed. */
  method Materialize(r: PrefixRange, max: int) returns (out: Option<seq<Prefix>>)
    requires r.Valid()
    ensures out.Some? <==> Materializes(r, max)
    ensures out.Some? ==> out.value == Listing(r.prefix, r.lo, r.hi)
  {
    if r.IsEmpty() { return Some([]); }
    var total := 0;
    ghost var p := r.prefix;
    for l := r.lo to r.hi + 1
      invariant total + Count(p, l, r.hi) == Count(p, r.lo, r.hi)
      invariant l > r.lo ==> total <= max && l - |p.net| <= 31
    {
      if l - |r.prefix.net| >= 31 { return None; }
      total := total + Pow2(l - |r.prefix.net|);
      if total > max { return None; }
    }
    ListingCount(p, r.lo, r.hi);
    var qs := All(r, total + 1);
    assert Listing(p, r.lo, r.hi)[..total] == Listing(p, r.lo, r.hi);
    return Some(qs);
  }

  lemma {:induction false} CountLast(p: Prefix, l: nat, hi: nat)
    requires |p.net| <= l <= hi
    ensures Count(p, l, hi) >= Pow2(hi - |p.net|)
    decreases hi - l
  {
    if l < hi { CountLast(p, l + 1, hi); }
  }

  /** The count alone decides, as documented. */
  ghost predicate CountDecides(r: PrefixRange, max: int)
    requires r.Valid()
  {
    Materializes(r, max) <==> Count(r.prefix, r.lo, r.hi) <= max
  }

  lemma {:induction false} CountPositive(r: PrefixRange)
    requires r.Valid()
    ensures Count(r.prefix, r.lo, r.hi) == 0 <==> r.IsEmpty()
  {
  }

  /** It does for a range and a cap unless the window reaches 31 bits or more past the prefix and the count is
      within the cap, or the range is empty and the cap below zero. */
  lemma {:induction false} CountDecidesIff(r: PrefixRange, max: int)
    requires r.Valid()
    ensures CountDecides(r, max) <==>
            if r.IsEmpty() then max >= 0
            else r.hi - |r.prefix.net| < 31 || Count(r.prefix, r.lo, r.hi) > max
  {
    CountPositive(r);
  }

  lemma {:induction false} CapDecides(r: PrefixRange, max: nat)
    requires r.Valid() && max < Pow2(31)
    ensures CountDecides(r, max)
  {
    if !r.IsEmpty() {
      CountLast(r.prefix, r.lo, r.hi);
      if r.hi - |r.prefix.net| >= 31 { Pow2Mono(31, r.hi - |r.prefix.net|); }
    }
  }

  /** "0.0.0.0/0^31" has 2^31 prefixes, and every cap refuses it. */
  lemma {:induction false} CapRefuses(max: int)
    requires max >= Pow2(31)
    ensures var r := PrefixRange(Prefix(V4, []), 31, 31); r.Valid() && !CountDecides(r, max)
  {
    assert Count(Prefix(V4, []), 32, 31) == 0;
  }

  /** The caps under which the count decides for every range are those from 0 to below 2^31. */
  lemma {:induction false} CapExact(max: int)
    ensures (forall r: PrefixRange :: r.Valid() ==> CountDecides(r, max)) <==> 0 <= max < Pow2(31)
  {
    if max < 0 {
      var r := PrefixRange(Prefix(V4, []), 1, 0);
      CountDecidesIff(r, max);
    } else if max >= Pow2(31) {
      CapRefuses(max);
    } else {
      forall r: PrefixRange | r.Valid() ensures CountDecides(r, max) { CapDecides(r, max); }
    }
  }
}
