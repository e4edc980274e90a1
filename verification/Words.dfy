/** Natural-number meaning of the bit operations of math/bits, and the two-word numbers of
    types/addrrange.go built from them. */
module Words {

  function Pow2(k: nat): (p: nat)
    ensures p > 0
  {
    if k == 0 then 1 else 2 * Pow2(k - 1)
  }

  lemma {:induction false} Pow2Mono(j: nat, k: nat)
    requires j <= k
    ensures Pow2(j) <= Pow2(k)
    decreases k
  {
    if j < k { Pow2Mono(j, k - 1); }
  }

  lemma Pow2Strict(j: nat, k: nat)
    requires j < k
    ensures Pow2(j) < Pow2(k)
  {
    Pow2Mono(j + 1, k);
  }

  lemma {:induction false} Pow2Add(j: nat, k: nat)
    ensures Pow2(j + k) == Pow2(j) * Pow2(k)
    decreases j
  {
    if j > 0 {
      Pow2Add(j - 1, k);
      assert Pow2(j) * Pow2(k) == 2 * (Pow2(j - 1) * Pow2(k));
    }
  }

  // ---- bits of naturals ----

  /** The count of low zero bits. */
  function TrailingZeros(x: nat): nat
    requires x > 0
  {
    if x % 2 == 1 then 0 else 1 + TrailingZeros(x / 2)
  }

  /** The number of x's binary digits; none for zero. */
  function BitLen(x: nat): nat { if x == 0 then 0 else 1 + BitLen(x / 2) }

  function Or(x: nat, y: nat): nat {
    if x == 0 && y == 0 then 0
    else (if x % 2 == 1 || y % 2 == 1 then 1 else 0) + 2 * Or(x / 2, y / 2)
  }

  ghost predicate Aligned(x: nat, k: nat) { exists q: nat :: x == q * Pow2(k) }

  lemma AlignedIntro(x: nat, q: nat, k: nat)
    requires x == q * Pow2(k)
    ensures Aligned(x, k)
  {
  }

  lemma MulDouble(q: nat, p: nat)
    ensures q * (2 * p) == 2 * (q * p)
  {
  }

  lemma AlignedDown(x: nat, k: nat)
    requires Aligned(x, k + 1)
    ensures x % 2 == 0 && Aligned(x / 2, k)
  {
    var q: nat :| x == q * Pow2(k + 1);
    MulDouble(q, Pow2(k));
    AlignedIntro(x / 2, q, k);
  }

  lemma AlignedUp(x: nat, k: nat)
    requires Aligned(x, k)
    ensures Aligned(2 * x, k + 1)
  {
    var q: nat :| x == q * Pow2(k);
    MulDouble(q, Pow2(k));
    AlignedIntro(2 * x, q, k + 1);
  }

  /** TrailingZeros is the largest alignment. */
  lemma {:induction false} TrailingZerosIsAlignment(x: nat, k: nat)
    requires x > 0
    ensures Aligned(x, k) <==> k <= TrailingZeros(x)
    decreases x
  {
    if k == 0 {
      AlignedIntro(x, x, 0);
    } else if x % 2 == 1 {
      if Aligned(x, k) { AlignedDown(x, k - 1); }
    } else {
      TrailingZerosIsAlignment(x / 2, k - 1);
      if Aligned(x, k) { AlignedDown(x, k - 1); }
      if Aligned(x / 2, k - 1) { AlignedUp(x / 2, k - 1); }
    }
  }

  lemma {:induction false} BitLenBounds(x: nat)
    ensures x < Pow2(BitLen(x)) && (x > 0 ==> Pow2(BitLen(x) - 1) <= x)
  {
    if x > 0 { BitLenBounds(x / 2); }
  }

  lemma {:induction false} BitLenUnder(x: nat, k: nat)
    requires x < Pow2(k)
    ensures BitLen(x) <= k
    decreases k
  {
    if x > 0 { BitLenUnder(x / 2, k - 1); }
  }

  /** Setting the low bits of an aligned number adds them. */
  lemma {:induction false} OrLowOnes(x: nat, k: nat)
    requires Aligned(x, k)
    ensures Or(x, Pow2(k) - 1) == x + (Pow2(k) - 1)
    decreases k
  {
    if k == 0 {
      OrZero(x);
    } else {
      AlignedDown(x, k - 1);
      OrLowOnes(x / 2, k - 1);
      assert (Pow2(k) - 1) / 2 == Pow2(k - 1) - 1 && (Pow2(k) - 1) % 2 == 1;
    }
  }

  lemma {:induction false} OrZero(x: nat)
    ensures Or(x, 0) == x
  {
    if x > 0 { OrZero(x / 2); }
  }

  // ---- a number as a high part and m low bits ----

  lemma HalfOfSplit(h: nat, l: nat, m: nat)
    requires m > 0 && l < Pow2(m)
    ensures (h * Pow2(m) + l) % 2 == l % 2
    ensures (h * Pow2(m) + l) / 2 == h * Pow2(m - 1) + l / 2 && l / 2 < Pow2(m - 1)
  {
    MulDouble(h, Pow2(m - 1));
  }

  lemma {:induction false} SplitTrailingZeros(h: nat, l: nat, m: nat)
    requires l < Pow2(m) && h * Pow2(m) + l > 0
    ensures TrailingZeros(h * Pow2(m) + l) == if l > 0 then TrailingZeros(l) else m + TrailingZeros(h)
    decreases m
  {
    if m > 0 {
      HalfOfSplit(h, l, m);
      if l % 2 == 0 { SplitTrailingZeros(h, l / 2, m - 1); }
    }
  }

  lemma {:induction false} SplitBitLen(h: nat, l: nat, m: nat)
    requires l < Pow2(m) && h > 0
    ensures BitLen(h * Pow2(m) + l) == m + BitLen(h)
    decreases m
  {
    if m > 0 {
      HalfOfSplit(h, l, m);
      assert h * Pow2(m) > 0;
      SplitBitLen(h, l / 2, m - 1);
    }
  }

  lemma OrStep(x: nat, y: nat)
    ensures Or(x, y) == (if x % 2 == 1 || y % 2 == 1 then 1 else 0) + 2 * Or(x / 2, y / 2)
  {
  }

  lemma DoubleSplit(a: nat, b: nat, p: nat, bit: nat)
    ensures bit + 2 * (a * p + b) == a * (2 * p) + (bit + 2 * b)
  {
  }

  /** One bit of SplitOr: x and y have the low bits of l and l'. */
  lemma SplitOrStep(o: nat, x: nat, y: nat, l: nat, l': nat, p: nat)
    requires x % 2 == l % 2 && y % 2 == l' % 2
    requires Or(x / 2, y / 2) == o * p + Or(l / 2, l' / 2) && Or(l / 2, l' / 2) < p
    ensures Or(x, y) == o * (2 * p) + Or(l, l') && Or(l, l') < 2 * p
  {
    OrStep(x, y);
    OrStep(l, l');
    DoubleSplit(o, Or(l / 2, l' / 2), p, if l % 2 == 1 || l' % 2 == 1 then 1 else 0);
  }

  lemma {:induction false} SplitOr(x: nat, y: nat, h: nat, l: nat, h': nat, l': nat, m: nat)
    requires l < Pow2(m) && l' < Pow2(m) && x == h * Pow2(m) + l && y == h' * Pow2(m) + l'
    ensures Or(x, y) == Or(h, h') * Pow2(m) + Or(l, l') && Or(l, l') < Pow2(m)
    decreases m
  {
    if m == 0 {
      assert x == h && y == h';
    } else {
      HalfOfSplit(h, l, m);
      HalfOfSplit(h', l', m);
      SplitOr(x / 2, y / 2, h, l / 2, h', l' / 2, m - 1);
      SplitOrStep(Or(h, h'), x, y, l, l', Pow2(m - 1));
    }
  }

  /** Setting bits below where a number's bits begin adds them. */
  lemma {:induction false} OrBelow(h: nat, l: nat, m: nat)
    requires l < Pow2(m)
    ensures Or(h * Pow2(m), l) == h * Pow2(m) + l
  {
    SplitOr(h * Pow2(m), l, h, 0, 0, l, m);
    OrZero(h);
    ZeroOr(l);
  }

  lemma {:induction false} ZeroOr(x: nat)
    ensures Or(0, x) == x
  {
    if x > 0 { ZeroOr(x / 2); }
  }

  // ---- bytes ----

  type Byte = x: nat | x < 256

  /** The number bytes write, the first the highest. */
  function BytesVal(bs: seq<Byte>): nat { if bs == [] then 0 else BytesVal(bs[..|bs| - 1]) * 256 + bs[|bs| - 1] }

  lemma {:induction false} BytesNext(bs: seq<Byte>, i: nat)
    requires i < |bs|
    ensures BytesVal(bs[..i + 1]) == BytesVal(bs[..i]) * 256 + bs[i]
  {
    assert bs[..i + 1][..i] == bs[..i];
  }

  lemma {:induction false} BytesBound(bs: seq<Byte>)
    ensures BytesVal(bs) < Pow2(8 * |bs|)
    decreases |bs|
  {
    if bs != [] {
      BytesBound(bs[..|bs| - 1]);
      Pow2Add(8 * (|bs| - 1), 8);
      Pow2Byte();
    }
  }

  lemma {:induction false} Pow2Byte()
    ensures Pow2(8) == 256
  {
    assert Pow2(4) == 16;
  }

  lemma {:induction false} BytesJoin(a: seq<Byte>, b: seq<Byte>)
    ensures BytesVal(a + b) == BytesVal(a) * Pow2(8 * |b|) + BytesVal(b)
    decreases |b|
  {
    if b == [] {
      assert a + b == a;
    } else {
      var init := b[..|b| - 1];
      BytesJoin(a, init);
      assert (a + b)[..|a + b| - 1] == a + init;
      Pow2Byte();
      Pow2Add(8 * |init|, 8);
      Regroup(BytesVal(a), Pow2(8 * |init|), BytesVal(init), b[|b| - 1]);
    }
  }

  lemma {:induction false} Regroup(x: nat, p: nat, y: nat, z: nat)
    ensures (x * p + y) * 256 + z == x * (p * 256) + (y * 256 + z)
  {
  }

  /** As many bytes write a number in just one way. */
  lemma {:induction false} BytesInjective(a: seq<Byte>, b: seq<Byte>)
    requires |a| == |b| && BytesVal(a) == BytesVal(b)
    ensures a == b
    decreases |a|
  {
    if a != [] {
      var x, y := a[..|a| - 1], b[..|b| - 1];
      LastByte(BytesVal(x), a[|a| - 1], BytesVal(y), b[|b| - 1]);
      BytesInjective(x, y);
      assert a == x + [a[|a| - 1]] && b == y + [b[|b| - 1]];
    }
  }

  lemma {:induction false} LastByte(x: nat, b: Byte, y: nat, c: Byte)
    requires x * 256 + b == y * 256 + c
    ensures x == y && b == c
  {
  }

  // ---- u128 ----

  const WORD: nat := 0x1_0000_0000_0000_0000

  lemma WordIsPow2()
    ensures Pow2(64) == WORD
  {
    Pow2Twice(8, 256);
    Pow2Twice(16, 0x1_0000);
    Pow2Twice(32, 0x1_0000_0000);
  }

  lemma {:induction false} Pow2Twice(k: nat, p: nat)
    requires Pow2(k) == p
    ensures Pow2(2 * k) == p * p
  {
    Pow2Add(k, k);
  }

  /** x << k of a word. */
  function Shl64(x: nat, k: nat): nat { x * Pow2(k) % WORD }

  /** x >> k. */
  function Shr(x: nat, k: nat): nat
    decreases k
  {
    if k == 0 then x else Shr(x / 2, k - 1)
  }

  lemma {:induction false} ShrMore(x: nat, j: nat, k: nat)
    ensures Shr(x, j + k) == Shr(Shr(x, j), k)
    decreases j
  {
    if j > 0 { ShrMore(x / 2, j - 1, k); }
  }

  lemma {:induction false} ShrByte(x: nat)
    ensures Shr(x, 8) == x / 256
  {
    var y := x / 2 / 2 / 2 / 2;
    assert Shr(x, 4) == y && Shr(y, 4) == y / 2 / 2 / 2 / 2;
    ShrMore(x, 4, 4);
  }

  /** byte(x >> k). */
  function ByteAt(x: nat, k: nat): Byte { Shr(x, k) % 256 }

  /** The bytes of x, the lowest last. */
  predicate BytesOf(x: nat, bs: seq<Byte>) { forall j :: 0 <= j < |bs| ==> bs[|bs| - 1 - j] == ByteAt(x, 8 * j) }

  lemma {:induction false} BytesOfVal(x: nat, bs: seq<Byte>)
    requires BytesOf(x, bs) && x < Pow2(8 * |bs|)
    ensures BytesVal(bs) == x
    decreases |bs|
  {
    if bs != [] {
      var n := |bs| - 1;
      var init := bs[..n];
      assert bs[|bs| - 1 - 0] == ByteAt(x, 8 * 0);
      forall j | 0 <= j < |init| ensures init[|init| - 1 - j] == ByteAt(x / 256, 8 * j) {
        assert bs[|bs| - 1 - (j + 1)] == ByteAt(x, 8 * (j + 1));
        ShrByte(x);
        ShrMore(x, 8, 8 * j);
      }
      Pow2Byte();
      Pow2Add(8 * n, 8);
      BytesOfVal(x / 256, init);
    }
  }

  /** u << 8 | b, of a word whose top byte is clear. */
  lemma {:induction false} ByteIn(x: nat, b: Byte)
    requires x * 256 < WORD
    ensures Or(Shl64(x, 8), b) == x * 256 + b
  {
    Pow2Byte();
    ShlFits(x, 8);
    OrBelow(x, b, 8);
  }

  lemma {:induction false} ShlFits(x: nat, k: nat)
    requires x * Pow2(k) < WORD
    ensures Shl64(x, k) == x * Pow2(k)
  {
    SmallMod(x * Pow2(k), WORD);
  }

  lemma {:induction false} SmallMod(x: nat, m: nat)
    requires x < m
    ensures x % m == x
  {
  }

  function Sub64(x: nat, y: nat, borrow: nat): (nat, nat)
    requires x < WORD && y < WORD && borrow <= 1
  {
    if x >= y + borrow then (x - y - borrow, 0) else (x + WORD - y - borrow, 1)
  }

  function Add64(x: nat, y: nat, carry: nat): (nat, nat)
    requires x < WORD && y < WORD && carry <= 1
  {
    if x + y + carry < WORD then (x + y + carry, 0) else (x + y + carry - WORD, 1)
  }

  /** 64 for zero, as math/bits has it. */
  function TrailingZeros64(x: nat): nat { if x == 0 then 64 else TrailingZeros(x) }

  datatype U128 = U128(hi: nat, lo: nat) {
    predicate Valid() { hi < WORD && lo < WORD }

    function Val(): nat { hi * WORD + lo }

    function Sub(v: U128): (r: U128)
      requires Valid() && v.Valid()
      ensures r.Valid() && (Val() >= v.Val() ==> r.Val() == Val() - v.Val())
    {
      var (l, borrow) := Sub64(lo, v.lo, 0);
      var (h, _) := Sub64(hi, v.hi, borrow);
      U128(h, l)
    }

    function Add1(): (r: U128)
      requires Valid()
      ensures r.Valid() && (Val() + 1 < WORD * WORD ==> r.Val() == Val() + 1)
    {
      var (l, carry) := Add64(lo, 1, 0);
      U128((hi + carry) % WORD, l)
    }

    function OrWith(v: U128): U128 { U128(Or(hi, v.hi), Or(lo, v.lo)) }

    function TrailingZeros128(): nat {
      if lo != 0 then TrailingZeros64(lo) else 64 + TrailingZeros64(hi)
    }

    function BitLen128(): nat { if hi != 0 then 64 + BitLen(hi) else BitLen(lo) }
  }

  /** n ones. */
  function LowOnes(n: nat): U128
    requires n <= 128
  {
    if n == 0 then U128(0, 0)
    else if n < 64 then U128(0, Pow2(n) - 1)
    else if n == 64 then U128(0, WORD - 1)
    else U128(Pow2(n - 64) - 1, WORD - 1)
  }

  lemma LowOnesVal(n: nat)
    requires n <= 128
    ensures LowOnes(n).Valid() && LowOnes(n).Val() == Pow2(n) - 1
  {
    WordIsPow2();
    if n < 64 {
      Pow2Mono(n, 64);
    } else if n > 64 {
      Pow2Mono(n - 64, 64);
      Pow2Add(n - 64, 64);
      assert (Pow2(n - 64) - 1) * WORD + (WORD - 1) == Pow2(n - 64) * WORD - 1;
    }
  }

  lemma OrVal(u: U128, v: U128)
    requires u.Valid() && v.Valid()
    ensures u.OrWith(v).Valid() && u.OrWith(v).Val() == Or(u.Val(), v.Val())
  {
    WordIsPow2();
    SplitOr(u.Val(), v.Val(), u.hi, u.lo, v.hi, v.lo, 64);
    SplitOr(u.hi, v.hi, 0, u.hi, 0, v.hi, 64);
  }

  lemma TrailingZerosVal(u: U128)
    requires u.Valid()
    ensures u.TrailingZeros128() == if u.Val() == 0 then 128 else TrailingZeros(u.Val())
  {
    WordIsPow2();
    if u.Val() > 0 { SplitTrailingZeros(u.hi, u.lo, 64); }
  }

  lemma BitLenVal(u: U128)
    requires u.Valid()
    ensures u.BitLen128() == BitLen(u.Val())
  {
    WordIsPow2();
    if u.hi > 0 { SplitBitLen(u.hi, u.lo, 64); }
  }

  lemma ValInjective(u: U128, v: U128)
    requires u.Valid() && v.Valid() && u.Val() == v.Val()
    ensures u == v
  {
  }
}
