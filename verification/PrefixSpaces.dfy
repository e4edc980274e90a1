/** PrefixSpace: one trie for each address family (types/prefixspace.go). */
module PrefixSpaces {
  import opened Prefixes
  import opened Tries
  import opened TrieSubsets

  datatype Space = Space(v4: Node, v6: Node) {
    function Trie(f: Family): Node { if f.V4? then v4 else v6 }

    predicate Valid() { Canonical(v4, 0, 32, {}) && Canonical(v6, 0, 128, {}) }

    predicate Contains(p: Prefix) { Holds(Trie(p.family), 0, p.net) }

    predicate IsEmpty() { v4.Nil? && v6.Nil? }
  }

  function Combine(op: SetOp, s: Space, t: Space): Space {
    Space(Merge(op, s.v4, t.v4, 0, 32, {}, {}), Merge(op, s.v6, t.v6, 0, 128, {}, {}))
  }

  /** Union, Intersect and Minus are the Boolean combinations of membership, and stay canonical. */
  lemma CombineExact(op: SetOp, s: Space, t: Space)
    requires s.Valid() && t.Valid()
    ensures Combine(op, s, t).Valid()
    ensures forall p: Prefix :: p.Valid() ==>
              (Combine(op, s, t).Contains(p) <==> op.Bools(s.Contains(p), t.Contains(p)))
  {
    MergeCanonical(op, s.v4, t.v4, 0, 32, {}, {}, {}, {});
    MergeCanonical(op, s.v6, t.v6, 0, 128, {}, {}, {}, {});
    forall p: Prefix | p.Valid()
      ensures Combine(op, s, t).Contains(p) <==> op.Bools(s.Contains(p), t.Contains(p))
    {
      MergeHolds(op, s.Trie(p.family), t.Trie(p.family), 0, Width(p.family), {}, {}, p.net);
    }
  }

  ghost predicate SamePrefixes(s: Space, t: Space) {
    forall p: Prefix :: p.Valid() ==> (s.Contains(p) <==> t.Contains(p))
  }

  /** Structural equality is equality of the sets. */
  lemma EqualIsSamePrefixes(s: Space, t: Space)
    requires s.Valid() && t.Valid()
    ensures s == t <==> SamePrefixes(s, t)
  {
    if SamePrefixes(s, t) {
      forall f: Family ensures SameBelow(s.Trie(f), t.Trie(f), 0, Width(f), {}) {
        forall net: seq<bool> | |net| <= Width(f) ensures Holds(s.Trie(f), 0, net) <==> Holds(t.Trie(f), 0, net) {
          var p := Prefix(f, net);
          assert s.Contains(p) <==> t.Contains(p);
        }
      }
      CanonicalUnique(s.v4, t.v4, 0, 32, {}) by { assert SameBelow(s.Trie(V4), t.Trie(V4), 0, Width(V4), {}); }
      CanonicalUnique(s.v6, t.v6, 0, 128, {}) by { assert SameBelow(s.Trie(V6), t.Trie(V6), 0, Width(V6), {}); }
    }
  }

  /** The walk down the path of p, one node at a time. */
  method ContainsWalk(s: Space, p: Prefix) returns (held: bool)
    requires p.Valid()
    ensures held == s.Contains(p)
  {
    var n, d, l := s.Trie(p.family), 0, |p.net|;
    while n.Node?
      invariant d <= l && (Holds(n, d, p.net[d..]) <==> s.Contains(p))
      decreases n
    {
      if l in n.mask { return true; }
      if d == l { return false; }
      assert p.net[d..][1..] == p.net[d + 1..];
      n, d := Kid(n, p.net[d]), d + 1;
    }
    return false;
  }

  // ---- building a space from ranges ----

  /** The raw trie n with the lengths win added at the node reached by net. */
  function Insert(n: Node, net: seq<bool>, win: Mask): Node {
    if net == [] then Node(MaskOf(n) + win, Kid(n, false), Kid(n, true))
    else if net[0] then Node(MaskOf(n), Kid(n, false), Insert(Kid(n, true), net[1..], win))
    else Node(MaskOf(n), Insert(Kid(n, false), net[1..], win), Kid(n, true))
  }

  lemma {:induction false} InsertHolds(n: Node, net: seq<bool>, win: Mask, d: nat, s: seq<bool>)
    ensures Holds(Insert(n, net, win), d, s) <==> (Holds(n, d, s) || (net <= s && d + |s| in win))
    decreases net
  {
    if net != [] && s != [] && s[0] == net[0] {
      InsertHolds(Kid(n, net[0]), net[1..], win, d + 1, s[1..]);
      assert net <= s <==> net[1..] <= s[1..] by {
        assert net == [net[0]] + net[1..] && s == [s[0]] + s[1..];
      }
    }
  }

  /** The lengths in a raw trie, none of them past the width. */
  predicate MasksWithin(n: Node, width: nat)
    decreases n
  {
    n.Node? ==> Within(n.mask, width) && MasksWithin(n.zero, width) && MasksWithin(n.one, width)
  }

  lemma {:induction false} InsertWithin(n: Node, net: seq<bool>, win: Mask, width: nat)
    requires MasksWithin(n, width) && Within(win, width)
    ensures MasksWithin(Insert(n, net, win), width)
    decreases net
  {
    if net != [] {
      InsertWithin(Kid(n, net[0]), net[1..], win, width);
    }
  }

  function Normalize(n: Node, d: nat, width: nat, covered: Mask): Node
    requires d <= width
    decreases width - d
  {
    if n.Nil? then Nil
    else
      var m := From(n.mask, d) - covered;
      if d < width then
        var below := From(covered + m, d + 1);
        Lifted(m, Normalize(n.zero, d + 1, width, below), Normalize(n.one, d + 1, width, below), d)
      else Mk(m, Nil, Nil)
  }

  lemma {:induction false} NormalizeHolds(n: Node, d: nat, width: nat, covered: Mask, s: seq<bool>)
    requires d + |s| <= width
    ensures HoldsWith(Normalize(n, d, width, covered), d, covered, s) <==> HoldsWith(n, d, covered, s)
    decreases width - d
  {
    if n.Node? {
      var m := From(n.mask, d) - covered;
      if d < width {
        var below := From(covered + m, d + 1);
        LiftedHolds(m, Normalize(n.zero, d + 1, width, below), Normalize(n.one, d + 1, width, below), d, s);
        if s != [] {
          NormalizeHolds(Kid(n, s[0]), d + 1, width, below, s[1..]);
        }
      } else {
        MkLeafHolds(m, d, s);
      }
    }
  }

  lemma {:induction false} NormalizeCanonical(n: Node, d: nat, width: nat, covered: Mask)
    requires d <= width && MasksWithin(n, width)
    ensures Canonical(Normalize(n, d, width, covered), d, width, covered)
    decreases width - d
  {
    if n.Node? {
      var m := From(n.mask, d) - covered;
      if d < width {
        var below := From(covered + m, d + 1);
        NormalizeCanonical(n.zero, d + 1, width, below);
        NormalizeCanonical(n.one, d + 1, width, below);
        LiftedCanonical(m, Normalize(n.zero, d + 1, width, below), Normalize(n.one, d + 1, width, below), d, width,
          covered);
      }
    }
  }

  /** The raw trie of family f after the ranges rs, in order; an empty range adds nothing. */
  function RawOf(rs: seq<PrefixRange>, f: Family): Node {
    if rs == [] then Nil
    else
      var raw, r := RawOf(rs[..|rs| - 1], f), rs[|rs| - 1];
      if r.IsEmpty() || r.prefix.family != f then raw
      else Insert(raw, r.prefix.net, Window(Max(r.lo, |r.prefix.net|), r.hi))
  }

  function SpaceOf(rs: seq<PrefixRange>): Space {
    Space(Normalize(RawOf(rs, V4), 0, 32, {}), Normalize(RawOf(rs, V6), 0, 128, {}))
  }

  /** The loop over the ranges, one raw trie per family. */
  method BuildSpace(rs: seq<PrefixRange>) returns (s: Space)
    ensures s == SpaceOf(rs)
  {
    var raw4, raw6: Node := Nil, Nil;
    for i := 0 to |rs|
      invariant raw4 == RawOf(rs[..i], V4) && raw6 == RawOf(rs[..i], V6)
    {
      var r := rs[i];
      assert rs[..i + 1][..i] == rs[..i];
      if !r.IsEmpty() {
        var win := Window(Max(r.lo, |r.prefix.net|), r.hi);
        if r.prefix.family.V4? { raw4 := Insert(raw4, r.prefix.net, win); }
        else { raw6 := Insert(raw6, r.prefix.net, win); }
      }
    }
    assert rs[..|rs|] == rs;
    s := Space(Normalize(raw4, 0, 32, {}), Normalize(raw6, 0, 128, {}));
  }

  predicate AnyDenotes(rs: seq<PrefixRange>, p: Prefix) { exists i :: 0 <= i < |rs| && rs[i].Denotes(p) }

  lemma AnyDenotesLast(rs: seq<PrefixRange>, p: Prefix)
    requires rs != []
    ensures AnyDenotes(rs, p) <==> AnyDenotes(rs[..|rs| - 1], p) || rs[|rs| - 1].Denotes(p)
  {
    var init := rs[..|rs| - 1];
    if AnyDenotes(init, p) {
      var i :| 0 <= i < |init| && init[i].Denotes(p);
      assert rs[i].Denotes(p);
    }
    assert forall i :: 0 <= i < |rs| ==> rs[i] == if i < |init| then init[i] else rs[|rs| - 1];
  }

  predicate ValidList(rs: seq<PrefixRange>) { forall i :: 0 <= i < |rs| ==> rs[i].Valid() }

  lemma {:induction false} RawOfHolds(rs: seq<PrefixRange>, f: Family)
    requires ValidList(rs)
    ensures MasksWithin(RawOf(rs, f), Width(f))
    ensures forall p: Prefix :: p.family == f ==> (Holds(RawOf(rs, f), 0, p.net) <==> AnyDenotes(rs, p))
  {
    if rs != [] {
      var raw, r := RawOf(rs[..|rs| - 1], f), rs[|rs| - 1];
      RawOfHolds(rs[..|rs| - 1], f);
      var win := Window(Max(r.lo, |r.prefix.net|), r.hi);
      if r.prefix.family == f { InsertWithin(raw, r.prefix.net, win, Width(f)); }
      forall p: Prefix | p.family == f ensures Holds(RawOf(rs, f), 0, p.net) <==> AnyDenotes(rs, p) {
        AnyDenotesLast(rs, p);
        InsertHolds(raw, r.prefix.net, win, 0, p.net);
      }
    }
  }

  /** SpaceOf is canonical and denotes the union of its ranges. */
  lemma SpaceOfMeaning(rs: seq<PrefixRange>)
    requires ValidList(rs)
    ensures SpaceOf(rs).Valid()
    ensures forall p: Prefix :: p.Valid() ==> (SpaceOf(rs).Contains(p) <==> AnyDenotes(rs, p))
  {
    forall f: Family
      ensures Canonical(SpaceOf(rs).Trie(f), 0, Width(f), {})
      ensures forall p: Prefix :: p.Valid() && p.family == f ==> (SpaceOf(rs).Contains(p) <==> AnyDenotes(rs, p))
    {
      RawOfHolds(rs, f);
      NormalizeCanonical(RawOf(rs, f), 0, Width(f), {});
      forall p: Prefix | p.Valid() && p.family == f ensures SpaceOf(rs).Contains(p) <==> AnyDenotes(rs, p) {
        NormalizeHolds(RawOf(rs, f), 0, Width(f), {}, p.net);
      }
    }
    assert Canonical(SpaceOf(rs).Trie(V4), 0, Width(V4), {}) && Canonical(SpaceOf(rs).Trie(V6), 0, Width(V6), {});
  }

  // ---- inclusion ----

  predicate SubsetOf(s: Space, t: Space, same: Sameness) {
    Subset(s.v4, t.v4, 0, 32, {}, {}, same) && Subset(s.v6, t.v6, 0, 128, {}, {}, same)
  }

  lemma SubsetOfIsEmptyMinus(s: Space, t: Space, same: Sameness)
    requires s.Valid() && t.Valid() && Sound(same)
    ensures SubsetOf(s, t, same) <==> Combine(OpMinus, s, t).IsEmpty()
  {
    SubsetIsEmptyMinus(s.v4, t.v4, 0, 32, {}, {}, {}, {}, same);
    SubsetIsEmptyMinus(s.v6, t.v6, 0, 128, {}, {}, {}, {}, same);
  }

  /** The tries of one family of ts, absent ones dropped. */
  function Tops(ts: seq<Space>, f: Family): (ns: seq<Node>)
    ensures AllNodes(ns)
    ensures (forall i :: 0 <= i < |ts| ==> ts[i].Valid()) ==>
              forall i :: 0 <= i < |ns| ==> Canonical(ns[i], 0, Width(f), {})
  {
    if ts == [] then []
    else
      var n := ts[|ts| - 1].Trie(f);
      Tops(ts[..|ts| - 1], f) + if n.Node? then [n] else []
  }

  function UnionAll(ts: seq<Space>): Space {
    if ts == [] then Space(Nil, Nil) else Combine(OpUnion, UnionAll(ts[..|ts| - 1]), ts[|ts| - 1])
  }

  lemma {:induction false} UnionAllFolds(ts: seq<Space>)
    ensures UnionAll(ts) == Space(FoldUnion(Tops(ts, V4), 32), FoldUnion(Tops(ts, V6), 128))
  {
    if ts != [] {
      var init := ts[..|ts| - 1];
      UnionAllFolds(init);
      forall f: Family ensures FoldUnion(Tops(ts, f), Width(f)) ==
                               Merge(OpUnion, FoldUnion(Tops(init, f), Width(f)), ts[|ts| - 1].Trie(f), 0, Width(f),
                                 {}, {})
      {
        var n := ts[|ts| - 1].Trie(f);
        if n.Node? { assert (Tops(init, f) + [n])[..|Tops(init, f)|] == Tops(init, f); }
        else { assert Tops(ts, f) == Tops(init, f); }
      }
      assert FoldUnion(Tops(ts, V4), Width(V4)) == UnionAll(ts).v4 &&
             FoldUnion(Tops(ts, V6), Width(V6)) == UnionAll(ts).v6;
    }
  }

  /** SubsetOfUnion: one space is compared by Subset, any other number by the walk over a shared list. */
  method SubsetOfUnion(s: Space, ts: seq<Space>, same: Sameness) returns (ok: bool)
    requires s.Valid() && (forall i :: 0 <= i < |ts| ==> ts[i].Valid()) && Sound(same)
    ensures ok <==> Combine(OpMinus, s, UnionAll(ts)).IsEmpty()
  {
    UnionAllIsCanonical(ts);
    SubsetOfIsEmptyMinus(s, UnionAll(ts), same);
    if |ts| == 1 {
      UnionOfOne(ts);
      return SubsetOf(s, ts[0], same);
    }
    UnionAllFolds(ts);
    SubsetUnionIsFoldedSubset(s.v4, Tops(ts, V4), 32, same);
    SubsetUnionIsFoldedSubset(s.v6, Tops(ts, V6), 128, same);
    var work := new WorkList(0);
    PushTops(ts, V4, work);
    ok := SubsetUnionWalk(s.v4, work.data, 0, work.len, 0, 32, {}, {}, same, work);
    if !ok { return; }
    work.len := 0;
    PushTops(ts, V6, work);
    ok := SubsetUnionWalk(s.v6, work.data, 0, work.len, 0, 128, {}, {}, same, work);
  }

  lemma {:induction false} UnionAllIsCanonical(ts: seq<Space>)
    requires forall i :: 0 <= i < |ts| ==> ts[i].Valid()
    ensures UnionAll(ts).Valid()
  {
    if ts != [] {
      UnionAllIsCanonical(ts[..|ts| - 1]);
      CombineExact(OpUnion, UnionAll(ts[..|ts| - 1]), ts[|ts| - 1]);
    }
  }

  lemma UnionOfOne(ts: seq<Space>)
    requires |ts| == 1
    ensures UnionAll(ts) == ts[0]
  {
    assert UnionAll(ts[..0]) == Space(Nil, Nil);
  }

  method PushTops(ts: seq<Space>, f: Family, work: WorkList)
    requires work.Valid() && work.len == 0
    modifies work, work.data
    ensures work.Valid() && (work.data == old(work.data) || fresh(work.data))
    ensures work.data[..work.len] == Tops(ts, f)
  {
    for i := 0 to |ts|
      invariant work.Valid() && (work.data == old(work.data) || fresh(work.data))
      invariant work.data[..work.len] == Tops(ts[..i], f)
    {
      assert ts[..i + 1][..i] == ts[..i];
      if ts[i].Trie(f).Node? {
        work.Append(ts[i].Trie(f));
      }
    }
    assert ts[..|ts|] == ts;
  }
}
