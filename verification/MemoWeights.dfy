/** What an answer weighs (resolve/filtermemo.go:175-192): one, and one for every range and every AS number of it. */
module MemoWeights {
  import opened Prefixes
  import opened FilterMemos

  /** A range of a conjunct, or an AS number of a set of one of its AS-path tests, by its place. */
  datatype Item = Range(i: nat) | NotRange(i: nat) | InSet(path: nat, set_: nat, asn: nat)

  ghost function RangesOf(c: Conjunct): set<Item> { set i | 0 <= i < |c.prefixes| :: Range(i) }

  ghost function NotRangesOf(c: Conjunct): set<Item> { set i | 0 <= i < |c.notPrefixes| :: NotRange(i) }

  ghost function SetsOf(ps: seq<seq<set<nat>>>): set<Item> {
    set p, s, x | 0 <= p < |ps| && 0 <= s < |ps[p]| && x in ps[p][s] :: InSet(p, s, x)
  }

  ghost function ItemsOf(c: Conjunct): set<Item> { RangesOf(c) + NotRangesOf(c) + SetsOf(c.paths) }

  /** The ranges and AS numbers of a normal form. */
  ghost function Items(cs: seq<Conjunct>): set<(nat, Item)> { Tagged(ItemsOf, cs) }

  /** What of gives of each, with its place. */
  ghost function Tagged(of: Conjunct -> set<Item>, cs: seq<Conjunct>): set<(nat, Item)> {
    set c, x | 0 <= c < |cs| && x in of(cs[c]) :: (c, x)
  }

  // ---- counting ----

  lemma {:induction false} ImageCount<T, R>(f: T -> R, s: set<T>, r: set<R>)
    requires (forall x, y :: x in s && y in s && f(x) == f(y) ==> x == y) && r == set x | x in s :: f(x)
    ensures |r| == |s|
    decreases |s|
  {
    if s != {} {
      var x :| x in s;
      var s' := s - {x};
      var r' := set y | y in s' :: f(y);
      ImageCount(f, s', r');
      assert r == r' + {f(x)} && f(x) !in r';
    }
  }

  lemma {:induction false} PlacesCount(f: nat -> Item, n: nat, r: set<Item>)
    requires forall i, j :: f(i) == f(j) ==> i == j
    requires (forall i: nat :: i < n ==> f(i) in r) && forall x :: x in r ==> exists i: nat :: i < n && f(i) == x
    ensures |r| == n
    decreases n
  {
    if n > 0 {
      PlacesCount(f, n - 1, r - {f(n - 1)});
    } else {
      assert r == {};
    }
  }

  lemma {:induction false} DisjointCount<T>(a: set<T>, b: set<T>)
    requires a !! b
    ensures |a + b| == |a| + |b|
  {
  }

  lemma {:induction false} RangesCount(c: Conjunct)
    ensures |RangesOf(c)| == |c.prefixes| && |NotRangesOf(c)| == |c.notPrefixes|
  {
    var f, g := (i: nat) => Range(i), (i: nat) => NotRange(i);
    forall x | x in RangesOf(c) ensures exists i: nat :: i < |c.prefixes| && f(i) == x { assert f(x.i) == x; }
    forall x | x in NotRangesOf(c) ensures exists i: nat :: i < |c.notPrefixes| && g(i) == x { assert g(x.i) == x; }
    PlacesCount(f, |c.prefixes|, RangesOf(c));
    PlacesCount(g, |c.notPrefixes|, NotRangesOf(c));
  }

  /** The AS numbers of the sets of the p-th test. */
  ghost function TestOf(p: nat, ss: seq<set<nat>>): set<Item> {
    set s, x | 0 <= s < |ss| && x in ss[s] :: InSet(p, s, x)
  }

  lemma {:induction false} TestCount(p: nat, ss: seq<set<nat>>)
    ensures |TestOf(p, ss)| == SetsWeight(ss)
    decreases |ss|
  {
    if ss == [] {
      assert TestOf(p, ss) == {};
    } else {
      var n := |ss| - 1;
      var last := set x | x in ss[n] :: InSet(p, n, x);
      ImageCount((x: nat) => InSet(p, n, x), ss[n], last);
      TestCount(p, ss[..n]);
      assert TestOf(p, ss) == TestOf(p, ss[..n]) + last;
      DisjointCount(TestOf(p, ss[..n]), last);
    }
  }

  lemma {:induction false} SetsCount(ps: seq<seq<set<nat>>>)
    ensures |SetsOf(ps)| == PathsWeight(ps)
    decreases |ps|
  {
    if ps == [] {
      assert SetsOf(ps) == {};
    } else {
      var n := |ps| - 1;
      SetsCount(ps[..n]);
      TestCount(n, ps[n]);
      assert SetsOf(ps) == SetsOf(ps[..n]) + TestOf(n, ps[n]);
      DisjointCount(SetsOf(ps[..n]), TestOf(n, ps[n]));
    }
  }

  lemma {:induction false} ItemsOfCount(c: Conjunct)
    ensures |ItemsOf(c)| == |c.prefixes| + |c.notPrefixes| + PathsWeight(c.paths)
  {
    RangesCount(c);
    SetsCount(c.paths);
    DisjointCount(RangesOf(c), NotRangesOf(c));
    DisjointCount(RangesOf(c) + NotRangesOf(c), SetsOf(c.paths));
  }

  lemma {:induction false} TaggedCount(of: Conjunct -> set<Item>, cs: seq<Conjunct>, n: nat)
    requires n + 1 == |cs|
    ensures |Tagged(of, cs)| == |Tagged(of, cs[..n])| + |of(cs[n])|
  {
    var last := set x | x in of(cs[n]) :: (n, x);
    ImageCount((x: Item) => (n, x), of(cs[n]), last);
    assert Tagged(of, cs) == Tagged(of, cs[..n]) + last;
    DisjointCount(Tagged(of, cs[..n]), last);
  }

  lemma {:induction false} ItemsCount(cs: seq<Conjunct>)
    ensures |Items(cs)| == ConjunctsWeight(cs)
    decreases |cs|
  {
    if cs == [] {
      assert Items(cs) == {};
    } else {
      var n := |cs| - 1;
      ItemsCount(cs[..n]);
      ItemsOfCount(cs[n]);
      TaggedCount(ItemsOf, cs, n);
    }
  }

  /** A normal form weighs one more than it has ranges and AS numbers, and so a new answer is kept exactly when four
      times that is within the bound. */
  lemma {:induction false} NormalKeptIff(m: Memo, k: Key, cs: seq<Conjunct>, err: Option<Failure>)
    requires m.Valid() && k !in m.entries
    ensures WeightOf(Normal(cs)) == 1 + |Items(cs)|
    ensures k in Keep(m, Answer(k, Normal(cs), err, WeightOf(Normal(cs)))).entries <==> 4 * (1 + |Items(cs)|) <= m.max
  {
    ItemsCount(cs);
    KeptIff(m, Answer(k, Normal(cs), err, WeightOf(Normal(cs))));
  }
}
