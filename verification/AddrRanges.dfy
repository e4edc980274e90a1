/** An address range as the fewest prefixes (types/addrrange.go:21-59). */
module AddrRanges {
  import opened Prefixes
  import opened Words

  /** Zone is "" but for scoped IPv6 addresses. An IPv4-mapped IPv6 address is IPv6. */
  datatype Addr = InvalidAddr | Addr(family: Family, bytes: seq<Byte>, zone: string) {
    predicate Wf() { Addr? ==> 8 * |bytes| == Width(family) && (family.V4? ==> zone == "") }

    function Value(): nat { if Addr? then BytesVal(bytes) else 0 }
  }

  datatype RangeError = BadAddress | HasZone | MixedFamilies | Reversed

  /** A prefix by its address and length. */
  datatype IpPrefix = IpPrefix(family: Family, bytes: seq<Byte>, bits: nat) {
    predicate Wf() { 8 * |bytes| == Width(family) && bits <= Width(family) }

    function AsBlock(): Block { Block(BytesVal(bytes), if bits <= Width(family) then Width(family) - bits else 0) }
  }

  function Blocks(ps: seq<IpPrefix>): (bs: seq<Block>)
    ensures |bs| == |ps|
  {
    seq(|ps|, i requires 0 <= i < |ps| => ps[i].AsBlock())
  }

  predicate AllOf(ps: seq<IpPrefix>, f: Family) { forall i :: 0 <= i < |ps| ==> ps[i].Wf() && ps[i].family == f }

  datatype RangeResult = Ok(prefixes: seq<IpPrefix>) | Err(error: RangeError)

  /** The prefix addr/(width - k) of a family width bits wide: the 2^k addresses from addr up. */
  datatype Block = Block(addr: nat, k: nat) {
    ghost predicate Valid(width: nat) { k <= width && Aligned(addr, k) }

    function Last(): nat { addr + (Pow2(k) - 1) }

    predicate Has(x: int) { addr <= x <= Last() }
  }

  /** The blocks follow one another without gap or overlap from lo to hi. */
  predicate Tiles(bs: seq<Block>, lo: nat, hi: int)
    decreases |bs|
  {
    if bs == [] then lo == hi + 1
    else bs[0].addr == lo && Tiles(bs[1..], bs[0].Last() + 1, hi)
  }

  /** No larger block starts where b does and ends by hi. */
  ghost predicate Greedy(b: Block, hi: nat) {
    forall j: nat :: Aligned(b.addr, j) && b.addr + (Pow2(j) - 1) <= hi ==> j <= b.k
  }

  ghost predicate AllGreedy(bs: seq<Block>, width: nat, hi: nat) {
    forall i :: 0 <= i < |bs| ==> bs[i].Valid(width) && Greedy(bs[i], hi)
  }

  // ---- tilings ----

  lemma {:induction false} TilesAppend(bs: seq<Block>, lo: nat, mid: int, b: Block)
    requires Tiles(bs, lo, mid) && b.addr == mid + 1
    ensures Tiles(bs + [b], lo, b.Last())
    decreases |bs|
  {
    if bs == [] {
      assert (bs + [b])[1..] == [];
    } else {
      TilesAppend(bs[1..], bs[0].Last() + 1, mid, b);
      assert (bs + [b])[1..] == bs[1..] + [b];
    }
  }

  /** Blocks of a tiling are within it, ascending and disjoint. */
  lemma {:induction false} TilesOrdered(bs: seq<Block>, lo: nat, hi: int, i: nat)
    requires Tiles(bs, lo, hi) && i < |bs|
    ensures lo <= bs[i].addr && bs[i].Last() <= hi
    ensures forall j :: i < j < |bs| ==> bs[i].Last() < bs[j].addr
    decreases |bs|
  {
    var rest := bs[1..];
    forall j | 0 <= j < |rest| ensures bs[0].Last() < rest[j].addr && rest[j].Last() <= hi {
      TilesOrdered(rest, bs[0].Last() + 1, hi, j);
    }
    assert forall j :: 0 < j < |bs| ==> bs[j] == rest[j - 1];
    if i > 0 {
      TilesOrdered(rest, bs[0].Last() + 1, hi, i - 1);
    } else if |bs| == 1 {
      assert rest == [];
    } else {
      assert bs[0].Last() < rest[0].addr;
    }
  }

  /** A tiling holds exactly the addresses from lo to hi. */
  lemma {:induction false} TilesCover(bs: seq<Block>, lo: nat, hi: int, x: int)
    requires Tiles(bs, lo, hi)
    ensures lo <= x <= hi <==> exists i :: 0 <= i < |bs| && bs[i].Has(x)
    decreases |bs|
  {
    if bs != [] {
      var rest := bs[1..];
      TilesCover(rest, bs[0].Last() + 1, hi, x);
      TilesOrdered(bs, lo, hi, 0);
      if bs[0].Last() + 1 <= x <= hi {
        var i :| 0 <= i < |rest| && rest[i].Has(x);
        assert bs[i + 1].Has(x);
      } else if lo <= x <= hi {
        assert bs[0].Has(x);
      }
      if i :| 0 <= i < |bs| && bs[i].Has(x) {
        TilesOrdered(bs, lo, hi, i);
      }
    }
  }

  // ---- aligned blocks nest ----

  lemma MulLe(a: int, b: int, p: int)
    requires p > 0 && a <= b
    ensures a * p <= b * p
  {
    assert (b - a) * p >= 0;
  }

  /** On a grid of step p, a cell that meets a run of m cells lies in it. */
  lemma GridNest(q: nat, s: nat, m: nat, p: nat, x: nat)
    requires p > 0 && q * p <= x < q * p + p && s * p <= x < s * p + m * p
    ensures s * p <= q * p && q * p + p <= s * p + m * p
  {
    assert (q + 1) * p == q * p + p && (s + m) * p == s * p + m * p;
    if s > q { MulLe(q + 1, s, p); }
    if q + 1 > s + m { MulLe(s + m, q, p); }
    MulLe(s, q, p);
    MulLe(q + 1, s + m, p);
  }

  /** Of two blocks that share an address, the one no larger lies in the other. */
  lemma BlocksNest(b: Block, c: Block, x: nat)
    requires Aligned(b.addr, b.k) && Aligned(c.addr, c.k) && b.k <= c.k && b.Has(x) && c.Has(x)
    ensures c.addr <= b.addr && b.Last() <= c.Last()
  {
    var p, m := Pow2(b.k), Pow2(c.k - b.k);
    var q: nat :| b.addr == q * Pow2(b.k);
    var r: nat :| c.addr == r * Pow2(c.k);
    Pow2Add(c.k - b.k, b.k);
    MulAssoc(r, m, p);
    GridNest(q, r * m, m, p, x);
  }

  lemma MulAssoc(a: nat, b: nat, c: nat)
    ensures a * (b * c) == (a * b) * c
  {
  }

  /** A block of a greedy tiling is maximal: no block within lo..hi that meets it reaches outside it. */
  lemma GreedyMaximal(bs: seq<Block>, lo: nat, hi: nat, width: nat, i: nat, c: Block, x: nat)
    requires Tiles(bs, lo, hi) && AllGreedy(bs, width, hi) && i < |bs|
    requires c.Valid(width) && lo <= c.addr && c.Last() <= hi && bs[i].Has(x) && c.Has(x)
    ensures bs[i].addr <= c.addr && c.Last() <= bs[i].Last()
  {
    var b := bs[i];
    if c.k <= b.k {
      BlocksNest(c, b, x);
    } else {
      BlocksNest(b, c, x);
      TilesCover(bs, lo, hi, c.addr);
      var j :| 0 <= j < |bs| && bs[j].Has(c.addr);
      StartsInSame(bs, lo, hi, width, i, j, c);
    }
  }

  /** A block that starts in an earlier tile than one it contains would have been chosen there. */
  lemma StartsInSame(bs: seq<Block>, lo: nat, hi: nat, width: nat, i: nat, j: nat, c: Block)
    requires Tiles(bs, lo, hi) && AllGreedy(bs, width, hi) && i < |bs| && j < |bs|
    requires c.Valid(width) && c.Last() <= hi && c.addr <= bs[i].addr && bs[i].Last() <= c.Last()
    requires bs[j].Has(c.addr)
    ensures i == j
  {
    TilesOrdered(bs, lo, hi, i);
    TilesOrdered(bs, lo, hi, j);
    if j < i {
      if c.k <= bs[j].k { BlocksNest(c, bs[j], c.addr); } else { BlocksNest(bs[j], c, c.addr); }
    }
  }

  // ---- minimality ----

  /** cover holds exactly the addresses lo to hi. */
  ghost predicate Covers(cover: set<Block>, lo: nat, hi: nat, width: nat) {
    (forall c :: c in cover ==> c.Valid(width)) && forall x: nat :: InCover(cover, x) <==> lo <= x <= hi
  }

  ghost predicate InCover(cover: set<Block>, x: nat) { exists c :: c in cover && c.Has(x) }

  /** No exact cover by prefixes is smaller than a greedy tiling. */
  lemma GreedyIsFewest(bs: seq<Block>, lo: nat, hi: nat, width: nat, cover: set<Block>)
    requires Tiles(bs, lo, hi) && AllGreedy(bs, width, hi) && Covers(cover, lo, hi, width)
    ensures |bs| <= |cover|
  {
    var chosen: set<Block> := {};
    for i := 0 to |bs|
      invariant chosen <= cover && |chosen| == i
      invariant forall c :: c in chosen ==> exists j :: 0 <= j < i && bs[j].addr <= c.addr && c.Last() <= bs[j].Last()
    {
      var c := CoveringBlock(bs, lo, hi, width, cover, i);
      if c in chosen {
        var j :| 0 <= j < i && bs[j].addr <= c.addr && c.Last() <= bs[j].Last();
        TilesOrdered(bs, lo, hi, j);
        assert false;
      }
      assert bs[i].addr <= c.addr && c.Last() <= bs[i].Last();
      chosen := chosen + {c};
    }
    SubsetCard(chosen, cover);
  }

  lemma CoveringBlock(bs: seq<Block>, lo: nat, hi: nat, width: nat, cover: set<Block>, i: nat) returns (c: Block)
    requires Tiles(bs, lo, hi) && AllGreedy(bs, width, hi) && Covers(cover, lo, hi, width) && i < |bs|
    ensures c in cover && bs[i].addr <= c.addr && c.Last() <= bs[i].Last()
  {
    TilesOrdered(bs, lo, hi, i);
    var x := bs[i].addr;
    assert InCover(cover, x);
    c :| c in cover && c.Has(x);
    assert c.Has(c.addr) && c.Has(c.Last());
    assert InCover(cover, c.addr) && InCover(cover, c.Last());
    GreedyMaximal(bs, lo, hi, width, i, c, x);
  }

  lemma {:induction false} SubsetCard<T>(a: set<T>, b: set<T>)
    requires a <= b
    ensures |a| <= |b|
    decreases a
  {
    if a != {} {
      var x :| x in a;
      SubsetCard(a - {x}, b - {x});
    }
  }

  // ---- a small cover, by halving ----

  lemma JoinCovers(a: set<Block>, b: set<Block>, lo: nat, mid: nat, hi: nat, width: nat)
    requires lo <= mid < hi && Covers(a, lo, mid, width) && Covers(b, mid + 1, hi, width)
    ensures Covers(a + b, lo, hi, width) && |a + b| <= |a| + |b|
  {
    assert a + b == a + (b - a);
    SubsetCard(b - a, b);
    forall x: nat ensures InCover(a + b, x) <==> InCover(a, x) || InCover(b, x) {
      if InCover(a, x) {
        var c :| c in a && c.Has(x);
        assert c in a + b;
      } else if InCover(b, x) {
        var c :| c in b && c.Has(x);
        assert c in a + b;
      }
    }
  }

  lemma WholeBlock(base: nat, k: nat, width: nat)
    requires Aligned(base, k) && k <= width
    ensures Covers({Block(base, k)}, base, base + (Pow2(k) - 1), width)
  {
    var b := Block(base, k);
    forall x: nat ensures InCover({b}, x) <==> b.Has(x) {
      if b.Has(x) { assert b in {b}; }
    }
  }

  lemma HalvesAligned(base: nat, k: nat)
    requires k > 0 && Aligned(base, k)
    ensures Aligned(base, k - 1) && Aligned(base + Pow2(k - 1), k - 1)
  {
    var q: nat :| base == q * Pow2(k);
    MulDouble(q, Pow2(k - 1));
    AlignedIntro(base, 2 * q, k - 1) by { assert 2 * (q * Pow2(k - 1)) == (2 * q) * Pow2(k - 1); }
    AlignedIntro(base + Pow2(k - 1), 2 * q + 1, k - 1) by {
      assert (2 * q + 1) * Pow2(k - 1) == (2 * q) * Pow2(k - 1) + Pow2(k - 1);
    }
  }

  /** From lo to the end of a block. */
  lemma {:induction false} SuffixCover(base: nat, k: nat, lo: nat, width: nat) returns (cover: set<Block>)
    requires Aligned(base, k) && k <= width && base <= lo <= base + (Pow2(k) - 1)
    ensures Covers(cover, lo, base + (Pow2(k) - 1), width) && |cover| <= Max(1, k)
    decreases k
  {
    if lo == base {
      WholeBlock(base, k, width);
      cover := {Block(base, k)};
    } else {
      HalvesAligned(base, k);
      var mid := base + Pow2(k - 1);
      if lo >= mid {
        cover := SuffixCover(mid, k - 1, lo, width);
      } else {
        var left := SuffixCover(base, k - 1, lo, width);
        WholeBlock(mid, k - 1, width);
        cover := left + {Block(mid, k - 1)};
        JoinCovers(left, {Block(mid, k - 1)}, lo, mid - 1, base + (Pow2(k) - 1), width);
        assert k - 1 > 0;
      }
    }
  }

  /** From the start of a block to hi. */
  lemma {:induction false} PrefixCover(base: nat, k: nat, hi: nat, width: nat) returns (cover: set<Block>)
    requires Aligned(base, k) && k <= width && base <= hi <= base + (Pow2(k) - 1)
    ensures Covers(cover, base, hi, width) && |cover| <= Max(1, k)
    decreases k
  {
    if hi == base + (Pow2(k) - 1) {
      WholeBlock(base, k, width);
      cover := {Block(base, k)};
    } else {
      HalvesAligned(base, k);
      var mid := base + Pow2(k - 1);
      if hi < mid {
        cover := PrefixCover(base, k - 1, hi, width);
      } else {
        var right := PrefixCover(mid, k - 1, hi, width);
        WholeBlock(base, k - 1, width);
        cover := {Block(base, k - 1)} + right;
        JoinCovers({Block(base, k - 1)}, right, base, mid - 1, hi, width);
        assert k - 1 > 0;
      }
    }
  }

  lemma {:induction false} SmallCover(base: nat, k: nat, lo: nat, hi: nat, width: nat) returns (cover: set<Block>)
    requires Aligned(base, k) && k <= width && base <= lo <= hi <= base + (Pow2(k) - 1)
    ensures Covers(cover, lo, hi, width) && |cover| <= Max(1, 2 * k - 2)
    decreases k
  {
    if lo == base && hi == base + (Pow2(k) - 1) {
      WholeBlock(base, k, width);
      cover := {Block(base, k)};
    } else {
      HalvesAligned(base, k);
      var mid := base + Pow2(k - 1);
      if hi < mid {
        cover := SmallCover(base, k - 1, lo, hi, width);
      } else if lo >= mid {
        cover := SmallCover(mid, k - 1, lo, hi, width);
      } else {
        var left := SuffixCover(base, k - 1, lo, width);
        var right := PrefixCover(mid, k - 1, hi, width);
        cover := left + right;
        JoinCovers(left, right, lo, mid - 1, hi, width);
        assert k - 1 > 0;
      }
    }
  }

  /** A greedy tiling of a range of a family width bits wide has at most 2 * width - 2 blocks. */
  lemma GreedyCount(bs: seq<Block>, lo: nat, hi: nat, width: nat)
    requires Tiles(bs, lo, hi) && AllGreedy(bs, width, hi) && lo <= hi < Pow2(width) && width >= 2
    ensures |bs| <= 2 * width - 2
  {
    AlignedIntro(0, 0, width);
    var cover := SmallCover(0, width, lo, hi, width);
    GreedyIsFewest(bs, lo, hi, width, cover);
  }

  // ---- the loop ----

  /** The size of the next block: cur's alignment and the count of addresses left bound it. */
  method NextSize(cur: U128, end: U128, width: nat) returns (k: nat)
    requires cur.Valid() && end.Valid() && cur.Val() <= end.Val() < Pow2(width) && width <= 128
    ensures k <= width && Block(cur.Val(), k).Valid(width) && Block(cur.Val(), k).Last() <= end.Val()
    ensures Greedy(Block(cur.Val(), k), end.Val())
  {
    k := cur.TrailingZeros128();
    var left := end.Sub(cur);
    var fit := left.BitLen128();
    ghost var x, n := cur.Val(), left.Val();
    TrailingZerosVal(cur);
    BitLenVal(left);
    BitLenBounds(n);
    BitLenUnder(n, width);
    LowOnesVal(fit);
    if left == LowOnes(fit) {
      k := Min(k, fit);
    } else {
      assert n != Pow2(fit) - 1 by {
        if n == Pow2(fit) - 1 { ValInjective(left, LowOnes(fit)); }
      }
      k := Min(k, fit - 1);
    }
    assert Pow2(k) - 1 <= n by { Pow2Mono(k, if n == Pow2(fit) - 1 then fit else fit - 1); }
    AlignedUpTo(x, k);
    forall j: nat | Aligned(x, j) && x + (Pow2(j) - 1) <= end.Val() ensures j <= k {
      if j > k { FitsNoLarger(x, n, fit, k, j); }
    }
  }

  lemma AlignedUpTo(x: nat, k: nat)
    requires x == 0 || k <= TrailingZeros(x)
    ensures Aligned(x, k)
  {
    if x == 0 { AlignedIntro(0, 0, k); } else { TrailingZerosIsAlignment(x, k); }
  }

  lemma FitsNoLarger(x: nat, n: nat, fit: nat, k: nat, j: nat)
    requires n < Pow2(fit)
    requires k == Min(if x == 0 then 128 else TrailingZeros(x), if n == Pow2(fit) - 1 then fit else fit - 1)
    requires fit <= 128 && Aligned(x, j) && Pow2(j) - 1 <= n && k >= 0
    ensures j <= k
  {
    if x > 0 { TrailingZerosIsAlignment(x, j); }
    if j > fit { Pow2Strict(fit, j); }
  }

  // ---- an address as a number ----

  /** u128Of: the number of an address, built from its bytes. */
  method U128Of(a: Addr) returns (u: U128)
    requires a.Addr? && a.Wf()
    ensures u.Valid() && u.Val() == a.Value()
  {
    var b := a.bytes;
    if a.family.V4? {
      FourIn(b);
      return U128(0, Or(Or(Or(Shl64(b[0], 24), Shl64(b[1], 16)), Shl64(b[2], 8)), b[3]));
    }
    u := U128(0, 0);
    for i := 0 to 8
      invariant u == U128(BytesVal(b[..i]), BytesVal(b[8..][..i]))
    {
      BytesIn(b[..8], i);
      BytesIn(b[8..], i);
      assert b[..8][..i] == b[..i] && b[..8][..i + 1] == b[..i + 1];
      u := U128(Or(Shl64(u.hi, 8), b[i]), Or(Shl64(u.lo, 8), b[8 + i]));
    }
    TwoWords(b);
  }

  lemma {:induction false} BytesIn(b: seq<Byte>, i: nat)
    requires i < |b| == 8
    ensures Or(Shl64(BytesVal(b[..i]), 8), b[i]) == BytesVal(b[..i + 1])
  {
    BytesNext(b, i);
    BytesBound(b[..i + 1]);
    Pow2Mono(8 * (i + 1), 64);
    WordIsPow2();
    ByteIn(BytesVal(b[..i]), b[i]);
  }

  lemma {:induction false} TwoWords(b: seq<Byte>)
    requires |b| == 16
    ensures var u := U128(BytesVal(b[..8]), BytesVal(b[8..][..8])); u.Valid() && u.Val() == BytesVal(b)
  {
    assert b == b[..8] + b[8..] && b[8..][..8] == b[8..];
    BytesJoin(b[..8], b[8..]);
    BytesBound(b[..8]);
    BytesBound(b[8..]);
    WordIsPow2();
  }

  lemma {:induction false} FourIn(b: seq<Byte>)
    requires |b| == 4
    ensures Or(Or(Or(Shl64(b[0], 24), Shl64(b[1], 16)), Shl64(b[2], 8)), b[3]) == BytesVal(b) < WORD
  {
    FourVal(b);
    FourOr(b[0], b[1], b[2], b[3]);
  }

  function Four(w: nat, x: nat, y: nat, z: nat): nat { ((w * 256 + x) * 256 + y) * 256 + z }

  lemma {:induction false} FourOr(w: nat, x: nat, y: nat, z: nat)
    requires w < 256 && x < 256 && y < 256 && z < 256
    ensures Or(Or(Or(Shl64(w, 24), Shl64(x, 16)), Shl64(y, 8)), z) == Four(w, x, y, z) < WORD
  {
    FourPowers();
    ShlFits(w, 24);
    ShlFits(x, 16);
    ShlFits(y, 8);
    OrBelow(w, x * Pow2(16), 24);
    OrBelow(w * 256 + x, y * Pow2(8), 16);
    OrBelow((w * 256 + x) * 256 + y, z, 8);
  }

  lemma {:induction false} FourPowers()
    ensures Pow2(8) == 0x100 && Pow2(16) == 0x1_0000 && Pow2(24) == 0x100_0000 && Pow2(32) == 0x1_0000_0000
  {
    Pow2Byte();
    Pow2Twice(8, 0x100);
    Pow2Add(8, 16);
    Pow2Twice(16, 0x1_0000);
  }

  lemma {:induction false} FourVal(b: seq<Byte>)
    requires |b| == 4
    ensures BytesVal(b) == Four(b[0], b[1], b[2], b[3])
  {
    assert b[..4] == b && b[..0] == [];
    BytesNext(b, 0);
    BytesNext(b, 1);
    BytesNext(b, 2);
    BytesNext(b, 3);
  }

  /** addr: the bytes of the address a number is. */
  method AddrOf(u: U128, f: Family) returns (bytes: seq<Byte>)
    requires u.Valid() && u.Val() < Pow2(Width(f))
    ensures 8 * |bytes| == Width(f) && BytesVal(bytes) == u.Val()
  {
    if f.V4? {
      bytes := [ByteAt(u.lo, 24), ByteAt(u.lo, 16), ByteAt(u.lo, 8), ByteAt(u.lo, 0)];
      FourBack(u, bytes);
    } else {
      bytes := SixteenOf(u);
    }
  }

  method SixteenOf(u: U128) returns (bytes: seq<Byte>)
    requires u.Valid()
    ensures |bytes| == 16 && BytesVal(bytes) == u.Val()
  {
    var b := new Byte[16](_ => 0);
    for i := 0 to 8
      invariant b.Length == 16
      invariant forall j :: 0 <= j < i ==> b[7 - j] == ByteAt(u.hi, 8 * j) && b[15 - j] == ByteAt(u.lo, 8 * j)
    {
      b[7 - i] := ByteAt(u.hi, 8 * i);
      b[15 - i] := ByteAt(u.lo, 8 * i);
    }
    bytes := b[..];
    WordsBack(u, bytes);
  }

  lemma {:induction false} FourBack(u: U128, b: seq<Byte>)
    requires u.Valid() && u.Val() < Pow2(32)
    requires b == [ByteAt(u.lo, 24), ByteAt(u.lo, 16), ByteAt(u.lo, 8), ByteAt(u.lo, 0)]
    ensures BytesVal(b) == u.Val()
  {
    FourPowers();
    assert u.hi == 0;
    BytesOfVal(u.lo, b);
  }

  lemma {:induction false} WordsBack(u: U128, b: seq<Byte>)
    requires u.Valid() && |b| == 16
    requires forall j :: 0 <= j < 8 ==> b[7 - j] == ByteAt(u.hi, 8 * j) && b[15 - j] == ByteAt(u.lo, 8 * j)
    ensures BytesVal(b) == u.Val()
  {
    WordIsPow2();
    assert BytesOf(u.hi, b[..8]) && BytesOf(u.lo, b[8..]);
    BytesOfVal(u.hi, b[..8]);
    BytesOfVal(u.lo, b[8..]);
    assert b == b[..8] + b[8..];
    BytesJoin(b[..8], b[8..]);
  }

  /** An address turned into a number and back is the address. */
  method AddrRoundTrip(a: Addr) returns (bytes: seq<Byte>)
    requires a.Addr? && a.Wf()
    ensures bytes == a.bytes
  {
    BytesBound(a.bytes);
    var u := U128Of(a);
    bytes := AddrOf(u, a.family);
    BytesInjective(bytes, a.bytes);
  }

  /** What makes a prefix of family f a block: it is well formed, of that family, and has the same addresses. */
  datatype Likeness = Form | Kind | Extent

  predicate Alike(x: Likeness, p: IpPrefix, f: Family, b: Block) {
    match x
    case Form => p.Wf()
    case Kind => p.family == f
    case Extent => p.AsBlock() == b
  }

  ghost predicate IsBlock(p: IpPrefix, f: Family, b: Block) { forall x :: Alike(x, p, f, b) }

  /** The prefixes are of family f and are the blocks. */
  ghost predicate Match(ps: seq<IpPrefix>, f: Family, bs: seq<Block>) {
    |ps| == |bs| && forall i :: 0 <= i < |ps| ==> IsBlock(ps[i], f, bs[i])
  }

  lemma {:induction false} MatchBlocks(ps: seq<IpPrefix>, f: Family, bs: seq<Block>)
    requires Match(ps, f, bs)
    ensures AllOf(ps, f) && Blocks(ps) == bs
  {
    forall i | 0 <= i < |ps| ensures ps[i].Wf() && ps[i].family == f && ps[i].AsBlock() == bs[i] {
      assert Alike(Form, ps[i], f, bs[i]) && Alike(Kind, ps[i], f, bs[i]) && Alike(Extent, ps[i], f, bs[i]);
    }
  }

  /** Addresses of family f have width bits. */
  ghost predicate Wide(f: Family, width: nat) { forall g {:trigger Width(g)} :: g == f ==> width == Width(g) }

  /** The loop of AddrRangePrefixes, with the blocks its prefixes are. */
  method GreedyLoop(lo: U128, hi: U128, f: Family, width: nat) returns (ps: seq<IpPrefix>, ghost bs: seq<Block>)
    requires lo.Valid() && hi.Valid() && lo.Val() <= hi.Val() < Pow2(width) && Wide(f, width)
    ensures Match(ps, f, bs) && Tiles(bs, lo.Val(), hi.Val()) && AllGreedy(bs, width, hi.Val())
  {
    var cur := lo;
    ps, bs := [], [];
    while true
      invariant cur.Valid() && lo.Val() <= cur.Val() <= hi.Val() && Match(ps, f, bs)
      invariant Tiles(bs, lo.Val(), cur.Val() - 1) && AllGreedy(bs, width, hi.Val())
      decreases hi.Val() - cur.Val()
    {
      var p, b, last := NextPrefix(cur, hi, f, width);
      TilesAppend(bs, lo.Val(), cur.Val() - 1, b);
      ps, bs := ps + [p], bs + [b];
      if last == hi { return; }
      cur := NextAddr(last, hi);
    }
  }

  method GreedyBlocks(lo: U128, hi: U128, f: Family, width: nat) returns (ps: seq<IpPrefix>)
    requires lo.Valid() && hi.Valid() && lo.Val() <= hi.Val() < Pow2(width) && Wide(f, width)
    ensures AllOf(ps, f) && Tiles(Blocks(ps), lo.Val(), hi.Val()) && AllGreedy(Blocks(ps), width, hi.Val())
  {
    ghost var bs;
    ps, bs := GreedyLoop(lo, hi, f, width);
    MatchBlocks(ps, f, bs);
  }

  /** The prefix that starts at cur, the block it is, and its last address. */
  method NextPrefix(cur: U128, end: U128, f: Family, width: nat) returns (p: IpPrefix, ghost b: Block, last: U128)
    requires cur.Valid() && end.Valid() && cur.Val() <= end.Val() < Pow2(width) && Wide(f, width)
    ensures IsBlock(p, f, b)
    ensures b.addr == cur.Val() && b.Valid(width) && Greedy(b, end.Val())
    ensures last.Valid() && last.Val() == b.Last() && cur.Val() <= last.Val() <= end.Val()
    ensures last == end <==> last.Val() == end.Val()
  {
    assert width == Width(f);
    var k;
    k, last := NextBlock(cur, end, width);
    var bytes := AddrOf(cur, f);
    p, b := IpPrefix(f, bytes, width - k), Block(cur.Val(), k);
  }

  method NextAddr(u: U128, end: U128) returns (v: U128)
    requires u.Valid() && end.Valid() && u.Val() < end.Val()
    ensures v.Valid() && v.Val() == u.Val() + 1
  {
    v := u.Add1();
  }

  /** The size of the block that starts at cur, and its last address. */
  method NextBlock(cur: U128, end: U128, width: nat) returns (k: nat, last: U128)
    requires cur.Valid() && end.Valid() && cur.Val() <= end.Val() < Pow2(width) && width <= 128
    ensures k <= width && Block(cur.Val(), k).Valid(width) && Greedy(Block(cur.Val(), k), end.Val())
    ensures last.Valid() && last.Val() == Block(cur.Val(), k).Last() && cur.Val() <= last.Val() <= end.Val()
    ensures last == end <==> last.Val() == end.Val()
  {
    k := NextSize(cur, end, width);
    last := LastOf(cur, k);
    if last.Val() == end.Val() { ValInjective(last, end); }
  }

  function LastOf(cur: U128, k: nat): (last: U128)
    requires cur.Valid() && k <= 128 && Aligned(cur.Val(), k)
    ensures last.Valid() && last.Val() == Block(cur.Val(), k).Last()
  {
    LowOnesVal(k);
    OrVal(cur, LowOnes(k));
    OrLowOnes(cur.Val(), k);
    cur.OrWith(LowOnes(k))
  }

  /** Ascending, disjoint prefixes holding exactly lo to hi; no exact cover is smaller; at most
      2 * width - 2 of them. Any other pair of addresses is an error. */
  method AddrRangePrefixes(lo: Addr, hi: Addr) returns (out: RangeResult)
    requires lo.Wf() && hi.Wf()
    ensures out == Err(BadAddress) <==> lo.InvalidAddr? || hi.InvalidAddr?
    ensures out == Err(HasZone) <==> lo.Addr? && hi.Addr? && !(lo.zone == "" == hi.zone)
    ensures out == Err(MixedFamilies) <==> Zoneless(lo, hi) && lo.family != hi.family
    ensures out == Err(Reversed) <==> Zoneless(lo, hi) && lo.family == hi.family && lo.Value() > hi.Value()
    ensures out.Ok? <==> Zoneless(lo, hi) && lo.family == hi.family && lo.Value() <= hi.Value()
    ensures out.Ok? ==> Fewest(out.prefixes, lo.family, lo.Value(), hi.Value())
  {
    if lo.InvalidAddr? || hi.InvalidAddr? { return Err(BadAddress); }
    if lo.zone != "" || hi.zone != "" { return Err(HasZone); }
    if lo.family != hi.family { return Err(MixedFamilies); }
    if lo.Value() > hi.Value() { return Err(Reversed); }
    BytesBound(hi.bytes);
    var from := U128Of(lo);
    var to := U128Of(hi);
    var ps := GreedyBlocks(from, to, lo.family, Width(lo.family));
    GreedyFewest(ps, lo.family, lo.Value(), hi.Value());
    return Ok(ps);
  }

  predicate Zoneless(lo: Addr, hi: Addr) { lo.Addr? && hi.Addr? && lo.zone == "" == hi.zone }

  /** The prefixes tile lo to hi, are of the family and aligned, are no more than any prefixes that cover just
      lo to hi, and at most 2 * width - 2. */
  ghost predicate Fewest(ps: seq<IpPrefix>, f: Family, lo: nat, hi: nat) {
    && AllOf(ps, f) && Tiles(Blocks(ps), lo, hi)
    && (forall i :: 0 <= i < |ps| ==> Blocks(ps)[i].Valid(Width(f)))
    && (forall cover :: Covers(cover, lo, hi, Width(f)) ==> |ps| <= |cover|)
    && |ps| <= 2 * Width(f) - 2
  }

  lemma {:induction false} GreedyFewest(ps: seq<IpPrefix>, f: Family, lo: nat, hi: nat)
    requires lo <= hi < Pow2(Width(f)) && AllOf(ps, f)
    requires Tiles(Blocks(ps), lo, hi) && AllGreedy(Blocks(ps), Width(f), hi)
    ensures Fewest(ps, f, lo, hi)
  {
    GreedyCount(Blocks(ps), lo, hi, Width(f));
    forall cover | Covers(cover, lo, hi, Width(f)) ensures |ps| <= |cover| {
      GreedyIsFewest(Blocks(ps), lo, hi, Width(f), cover);
    }
  }
}
