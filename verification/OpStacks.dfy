/** Stacks of range operators as tables (resolve/opstack.go). */
module OpStacks {
  import opened Prefixes

  /** The cell of a lower bound at which nothing survives the operators. */
  const DELETED: nat := 0xFF

  /** For each family, the result's lower bound for every inner lower bound, and its upper bound. */
  datatype OpStack = OpStack(set_: bool, hi4: nat, hi6: nat, lo4: seq<nat>, lo6: seq<nat>) {
    function Lo(f: Family): seq<nat> { if f.V4? then lo4 else lo6 }

    function Hi(f: Family): nat { if f.V4? then hi4 else hi6 }

    predicate Valid() {
      && |lo4| == 33 && |lo6| == 129 && hi4 < 256 && hi6 < 256
      && (forall k :: 0 <= k < 33 ==> lo4[k] < 256)
      && (forall k :: 0 <= k < 129 ==> lo6[k] < 256)
    }

    function Apply(r: PrefixRange): (t: Option<PrefixRange>)
      requires Valid() && r.Valid()
      ensures t.Some? ==> t.value.Valid() && !t.value.IsEmpty() && t.value.prefix == r.prefix
    {
      if r.IsEmpty() then None
      else if !set_ then Some(r)
      else
        var f := r.prefix.family;
        if r.lo > Width(f) || Lo(f)[r.lo] == DELETED then None
        else NewPrefixRange(r.prefix, Lo(f)[r.lo], Hi(f))
    }
  }

  /** The zero stack, which leaves ranges as they are. */
  function EmptyStack(): OpStack { OpStack(false, 0, 0, seq(33, _ => 0), seq(129, _ => 0)) }

  /** One cell of the table after pushing o: o first, then s, for inner lower bound k. */
  function Cell(s: OpStack, o: RangeOperator, f: Family, k: nat): (c: nat)
    requires s.Valid() && k <= Width(f)
    ensures c < 256
  {
    var (lo, hi) := o.Bounds(k, Width(f));
    if lo > hi then DELETED else if s.set_ then s.Lo(f)[lo] else lo
  }

  function Top(s: OpStack, o: RangeOperator, f: Family): (h: nat)
    requires s.Valid()
    ensures h < 256
  {
    if s.set_ then s.Hi(f) else Max(0, o.Bounds(Width(f), Width(f)).1)
  }

  function Table(s: OpStack, o: RangeOperator, f: Family): seq<nat>
    requires s.Valid()
  {
    seq(Width(f) + 1, k requires 0 <= k <= Width(f) => Cell(s, o, f, k))
  }

  function Push(s: OpStack, o: RangeOperator): (c: OpStack)
    requires s.Valid()
    ensures c.Valid()
  {
    if o.IsZero() then s
    else OpStack(true, Top(s, o, V4), Top(s, o, V6), Table(s, o, V4), Table(s, o, V6))
  }

  /** push as it fills its tables, cell by cell. */
  method PushLoop(s: OpStack, o: RangeOperator) returns (c: OpStack)
    requires s.Valid()
    ensures c == Push(s, o)
  {
    if o.IsZero() { return s; }
    var lo4, hi4 := FillTable(s, o, V4);
    var lo6, hi6 := FillTable(s, o, V6);
    c := OpStack(true, hi4, hi6, lo4, lo6);
  }

  method FillTable(s: OpStack, o: RangeOperator, f: Family) returns (table: seq<nat>, top: nat)
    requires s.Valid() && !o.IsZero()
    ensures table == Table(s, o, f) && top == Top(s, o, f)
  {
    var w := Width(f);
    var cells := new nat[w + 1](_ => 0);
    top := 0;
    for k := 0 to w + 1
      invariant forall j :: 0 <= j < k ==> cells[j] == Cell(s, o, f, j)
      invariant k > 0 ==> top == Top(s, o, f)
    {
      var lo, hi: int := o.n, o.m;
      if o.op.RangePlus? { lo, hi := k, w; }
      else if o.op.RangeMinus? { lo, hi := k + 1, w; }
      lo, hi := Max(lo, k), Min(hi, w);
      cells[k] := if lo > hi then DELETED else if s.set_ then s.Lo(f)[lo] else lo;
      top := if s.set_ then s.Hi(f) else hi;
    }
    table := cells[..];
  }

  /** Pushing o means applying o first. */
  lemma PushApplies(s: OpStack, o: RangeOperator, r: PrefixRange)
    requires s.Valid() && r.Valid() && !r.IsEmpty()
    ensures Push(s, o).Apply(r) == match o.Apply(r) case None => None case Some(x) => s.Apply(x)
  {
    if !o.IsZero() {
      var f := r.prefix.family;
      var (lo, hi) := o.Bounds(r.lo, Width(f));
      assert Push(s, o).Lo(f)[r.lo] == Cell(s, o, f, r.lo);
    }
  }

  /** The stack met along a path whose operators are ops, outermost first. */
  function StackOf(ops: seq<RangeOperator>): (s: OpStack)
    ensures s.Valid()
  {
    if ops == [] then EmptyStack() else Push(StackOf(ops[..|ops| - 1]), ops[|ops| - 1])
  }

  lemma StackOfAppend(ops: seq<RangeOperator>, o: RangeOperator)
    ensures StackOf(ops + [o]) == Push(StackOf(ops), o)
  {
    assert (ops + [o])[..|ops|] == ops;
  }

  /** The operators applied one at a time, innermost (last) first. */
  function ApplyInnermostFirst(ops: seq<RangeOperator>, r: PrefixRange): (t: Option<PrefixRange>)
    requires r.Valid()
    ensures t.Some? ==> t.value.Valid() && t.value.prefix == r.prefix
  {
    if ops == [] then Some(r)
    else
      var x := ops[|ops| - 1].Apply(r);
      if x.None? then None else ApplyInnermostFirst(ops[..|ops| - 1], x.value)
  }

  /** The tables refine one-by-one composition, deletions included. */
  lemma {:induction false} StackRefinesComposition(ops: seq<RangeOperator>, r: PrefixRange)
    requires r.Valid() && !r.IsEmpty()
    ensures StackOf(ops).Apply(r) == ApplyInnermostFirst(ops, r)
    decreases |ops|
  {
    if ops != [] {
      var outer, o := ops[..|ops| - 1], ops[|ops| - 1];
      PushApplies(StackOf(outer), o, r);
      if o.Apply(r).Some? {
        StackRefinesComposition(outer, o.Apply(r).value);
      }
    }
  }

  // ---- the states are finite ----

  function Bytes(n: nat): (b: set<nat>)
    ensures forall x: nat :: x in b <==> x < n
  {
    if n == 0 then {} else Bytes(n - 1) + {n - 1}
  }

  function Tables(n: nat): set<seq<nat>> {
    if n == 0 then {[]} else set t, b | t in Tables(n - 1) && b in Bytes(256) :: t + [b]
  }

  lemma {:induction false} TablesComplete(t: seq<nat>)
    requires forall i :: 0 <= i < |t| ==> t[i] < 256
    ensures t in Tables(|t|)
    decreases |t|
  {
    if t != [] {
      var init, last := t[..|t| - 1], t[|t| - 1];
      TablesComplete(init);
      assert init + [last] == t && last in Bytes(256);
    }
  }

  function Bools(): set<bool> { {false, true} }

  /** Every valid stack is one of these finitely many. */
  function AllStacks(): set<OpStack> {
    set b, h4, h6, l4, l6 | b in Bools() && h4 in Bytes(256) && h6 in Bytes(256) && l4 in Tables(33) &&
      l6 in Tables(129)
      :: OpStack(b, h4, h6, l4, l6)
  }

  lemma AllStacksComplete(s: OpStack)
    requires s.Valid()
    ensures s in AllStacks()
  {
    TablesComplete(s.lo4);
    TablesComplete(s.lo6);
    assert s.set_ in Bools() && s.hi4 in Bytes(256) && s.hi6 in Bytes(256);
    assert s == OpStack(s.set_, s.hi4, s.hi6, s.lo4, s.lo6);
  }
}
