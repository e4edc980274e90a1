/** FilterMemo: answers kept under keys, in two pools each bounded by weight and evicted least recently
    used first, one memo layered over another (resolve/filtermemo.go:44-237). */
module FilterMemos {
  import opened Prefixes

  datatype Key = Key(asns: bool, text: string, afi: Afi, depth: int, prefixes: int, visited: int, conjuncts: int)

  datatype Failure =
    | SetTooLarge(text: string) | NotEnumerable(text: string) | AnySet(text: string) | OtherFailure(text: string)
  {
    /** Nothing but the filter and the registry decides the failure. */
    predicate Memoizable() { !OtherFailure? }
  }

  /** A conjunct, as far as its weight goes. */
  datatype Conjunct = Conjunct(prefixes: seq<PrefixRange>, notPrefixes: seq<PrefixRange>, paths: seq<seq<set<nat>>>,
                               communities: seq<string>)

  datatype Value = Normal(conjuncts: seq<Conjunct>) | Expanded(members: set<nat>, missing: seq<string>)

  datatype Answer = Answer(key: Key, value: Value, err: Option<Failure>, weight: nat)

  // ---- pools ----

  /** lru holds a pool's answers, the most recently used first. */
  datatype Pool = Pool(held: int, lru: seq<Answer>)

  function Weights(as_: seq<Answer>): nat {
    if as_ == [] then 0 else Weights(as_[..|as_| - 1]) + as_[|as_| - 1].weight
  }

  predicate Distinct(as_: seq<Answer>) { forall i, j :: 0 <= i < j < |as_| ==> as_[i].key != as_[j].key }

  predicate HasKey(as_: seq<Answer>, k: Key) { exists i :: 0 <= i < |as_| && as_[i].key == k }

  /** One kind of answer only, each under its own key, of positive weight. */
  predicate PoolOk(p: Pool, asns: bool, max: int) {
    && Distinct(p.lru)
    && (forall i :: 0 <= i < |p.lru| ==> p.lru[i].key.asns == asns && p.lru[i].weight > 0)
    && p.held == Weights(p.lru)
    && p.held <= Max(max, 0)
  }

  // ---- one memo ----

  datatype Stats = Stats(hits: nat, misses: nat, peerDependent: nat)

  datatype Memo = Memo(max: int, entries: map<Key, Answer>, filters: Pool, asns: Pool, stats: Stats) {
    function PoolFor(k: Key): Pool { if k.asns then asns else filters }

    function WithPool(k: Key, p: Pool): Memo { if k.asns then this.(asns := p) else this.(filters := p) }

    predicate Holds(a: Answer) { a.key in entries && entries[a.key] == a }

    predicate Valid() { SideOk(entries, filters, false, max) && SideOk(entries, asns, true, max) }
  }

  /** For one kind of key, the pool is in order and the map and the list hold the same answers. */
  predicate SideOk(entries: map<Key, Answer>, p: Pool, asns: bool, max: int) {
    && PoolOk(p, asns, max)
    && (forall i :: 0 <= i < |p.lru| ==> p.lru[i].key in entries && entries[p.lru[i].key] == p.lru[i])
    && (forall k :: k in entries && k.asns == asns ==> entries[k].key == k && HasKey(p.lru, k))
  }

  ghost predicate SameOn(entries: map<Key, Answer>, entries': map<Key, Answer>, asns: bool) {
    forall k: Key :: k.asns == asns ==>
      (k in entries <==> k in entries') && (k in entries ==> entries[k] == entries'[k])
  }

  lemma {:induction false} SideApart(entries: map<Key, Answer>, entries': map<Key, Answer>, p: Pool, asns: bool,
                                     max: int)
    requires SideOk(entries, p, asns, max) && SameOn(entries, entries', asns)
    ensures SideOk(entries', p, asns, max)
  {
  }

  function Empty(max: int): (m: Memo)
    ensures m.Valid()
  {
    Memo(max, map[], Pool(0, []), Pool(0, []), Stats(0, 0, 0))
  }

  // ---- evicting ----

  /** The longest part of the front of as_ that weighs no more than max. */
  function Fit(as_: seq<Answer>, max: nat): seq<Answer> {
    if Weights(as_) <= max then as_ else Fit(as_[..|as_| - 1], max)
  }

  /** The answers a bound keeps are the most recent ones, and no more of them would fit. */
  lemma {:induction false} FitIsLongest(as_: seq<Answer>, max: nat)
    ensures var n := |Fit(as_, max)|;
            n <= |as_| && Fit(as_, max) == as_[..n] && Weights(as_[..n]) <= max &&
            forall m :: n < m <= |as_| ==> Weights(as_[..m]) > max
    decreases |as_|
  {
    if Weights(as_) <= max {
      assert as_[..|as_|] == as_;
    } else {
      var init := as_[..|as_| - 1];
      FitIsLongest(init, max);
      var n := |Fit(as_, max)|;
      forall m | n < m <= |as_| ensures Weights(as_[..m]) > max {
        if m == |as_| { assert as_[..m] == as_; } else { assert init[..m] == as_[..m]; }
      }
      assert init[..n] == as_[..n];
    }
  }

  /** The loop that takes answers off the back until the pool is within the bound. */
  method Evict(entries: map<Key, Answer>, p: Pool, max: nat) returns (entries': map<Key, Answer>, p': Pool)
    requires p.held == Weights(p.lru) && Distinct(p.lru) && forall i :: 0 <= i < |p.lru| ==> p.lru[i].key in entries
    ensures p' == Pool(Weights(Fit(p.lru, max)), Fit(p.lru, max))
    ensures entries' == Surviving(entries, p.lru, p'.lru)
  {
    entries', p' := entries, p;
    assert entries == Surviving(entries, p.lru, p.lru);
    while p'.held > max
      invariant p'.held == Weights(p'.lru) && p'.lru <= p.lru
      invariant Fit(p'.lru, max) == Fit(p.lru, max)
      invariant entries' == Surviving(entries, p.lru, p'.lru)
      decreases |p'.lru|
    {
      var n := |p'.lru| - 1;
      var old_ := p'.lru[n];
      assert old_ == p.lru[n] && p'.lru == p.lru[..n + 1];
      SurvivingLess(entries, p.lru, n);
      entries', p' := entries' - {old_.key}, Pool(p'.held - old_.weight, p'.lru[..n]);
      assert p'.lru == p.lru[..n];
    }
  }

  /** The entries left once the pool all is cut to left. */
  function Surviving(entries: map<Key, Answer>, all: seq<Answer>, left: seq<Answer>): map<Key, Answer> {
    map k | k in entries && (HasKey(all, k) ==> HasKey(left, k)) :: entries[k]
  }

  lemma {:induction false} SurvivingLess(entries: map<Key, Answer>, all: seq<Answer>, n: nat)
    requires n < |all| && Distinct(all)
    ensures Surviving(entries, all, all[..n + 1]) - {all[n].key} == Surviving(entries, all, all[..n])
  {
    forall k ensures HasKey(all[..n], k) <==> HasKey(all[..n + 1], k) && k != all[n].key {
      if HasKey(all[..n], k) {
        var i :| 0 <= i < n && all[..n][i].key == k;
        assert all[..n + 1][i].key == k;
      }
      if HasKey(all[..n + 1], k) && k != all[n].key {
        var i :| 0 <= i < n + 1 && all[..n + 1][i].key == k;
        assert all[..n][i].key == k;
      }
    }
    assert HasKey(all, all[n].key);
  }

  // ---- keep ----

  /** Go's quotient, which is toward zero. */
  function Quarter(max: int): int { if max < 0 then -(-max / 4) else max / 4 }

  predicate Keeps(m: Memo, a: Answer) { a.key !in m.entries && a.weight <= Quarter(m.max) }

  function KeptPool(p: Pool, a: Answer, max: nat): Pool {
    var left := Fit([a] + p.lru, max);
    Pool(Weights(left), left)
  }

  function KeptEntries(entries: map<Key, Answer>, p: Pool, a: Answer, max: nat): map<Key, Answer> {
    Surviving(entries[a.key := a], [a] + p.lru, KeptPool(p, a, max).lru)
  }

  /** The weight that a bound leaves room for is a quarter of it. */
  lemma {:induction false} QuarterIs(w: nat, max: int)
    requires w > 0
    ensures w <= Quarter(max) <==> 4 * w <= max
  {
  }

  /** The memo after keep of a. */
  function Keep(m: Memo, a: Answer): Memo
    requires a.weight > 0
  {
    if !Keeps(m, a) then m
    else
      var p := m.PoolFor(a.key);
      m.(entries := KeptEntries(m.entries, p, a, m.max)).WithPool(a.key, KeptPool(p, a, m.max))
  }

  lemma {:induction false} WeightsFront(a: Answer, as_: seq<Answer>)
    ensures Weights([a] + as_) == a.weight + Weights(as_)
    decreases |as_|
  {
    if as_ == [] {
      assert [a] + as_ == [a] && [a][..0] == [];
    } else {
      assert ([a] + as_)[..|as_|] == [a] + as_[..|as_| - 1];
      WeightsFront(a, as_[..|as_| - 1]);
    }
  }

  lemma {:induction false} KeysOfPrefix(all: seq<Answer>, n: nat, i: nat)
    requires n <= |all| && i < n
    ensures HasKey(all[..n], all[i].key) && HasKey(all, all[i].key)
  {
    assert all[..n][i] == all[i];
  }

  lemma {:induction false} KeyInFront(all: seq<Answer>, as_: seq<Answer>, a: Answer, k: Key)
    requires all == [a] + as_
    ensures HasKey(all, k) <==> k == a.key || HasKey(as_, k)
  {
    if HasKey(as_, k) {
      var i :| 0 <= i < |as_| && as_[i].key == k;
      assert all[i + 1].key == k;
    }
    assert all[0].key == a.key;
  }

  lemma {:induction false} FrontOk(entries: map<Key, Answer>, p: Pool, asns: bool, max: int, a: Answer)
    requires SideOk(entries, p, asns, max) && a.key !in entries && a.key.asns == asns && a.weight > 0
    ensures var all := [a] + p.lru;
            && Distinct(all)
            && (forall i :: 0 <= i < |all| ==> all[i].key.asns == asns && all[i].weight > 0)
            && (forall i :: 0 <= i < |all| ==>
              all[i].key in entries[a.key := a] && entries[a.key := a][all[i].key] == all[i])
  {
    var all := [a] + p.lru;
    assert forall i :: 0 <= i < |p.lru| ==> p.lru[i].key != a.key;
    assert forall i :: 0 < i < |all| ==> all[i] == p.lru[i - 1];
  }

  /** The kind of key a has, after keep of a. */
  lemma {:induction false} SideKept(entries: map<Key, Answer>, p: Pool, asns: bool, max: nat, a: Answer)
    requires SideOk(entries, p, asns, max) && a.key !in entries && a.key.asns == asns && a.weight > 0
    ensures SideOk(KeptEntries(entries, p, a, max), KeptPool(p, a, max), asns, max)
  {
    var all := [a] + p.lru;
    FrontOk(entries, p, asns, max, a);
    FitIsLongest(all, max);
    var n := |Fit(all, max)|;
    var entries', p' := KeptEntries(entries, p, a, max), KeptPool(p, a, max);
    assert p'.lru == all[..n];
    forall i | 0 <= i < n ensures p'.lru[i].key in entries' && entries'[p'.lru[i].key] == p'.lru[i] {
      KeysOfPrefix(all, n, i);
    }
    forall k | k in entries' && k.asns == asns ensures entries'[k].key == k && HasKey(p'.lru, k) {
      KeyInFront(all, p.lru, a, k);
    }
  }

  lemma {:induction false} SideOther(entries: map<Key, Answer>, p: Pool, max: nat, a: Answer)
    requires forall i :: 0 <= i < |p.lru| ==> p.lru[i].key.asns == a.key.asns
    ensures SameOn(entries, KeptEntries(entries, p, a, max), !a.key.asns)
  {
    forall k: Key | k.asns != a.key.asns ensures !HasKey([a] + p.lru, k) {
      KeyInFront([a] + p.lru, p.lru, a, k);
    }
  }

  /** keep keeps the map and the lists in agreement and every pool within its bound. */
  lemma {:induction false} KeepValid(m: Memo, a: Answer)
    requires m.Valid() && a.weight > 0
    ensures Keep(m, a).Valid()
  {
    if Keeps(m, a) {
      var p, r := m.PoolFor(a.key), Keep(m, a);
      SideKept(m.entries, p, a.key.asns, m.max, a);
      SideOther(m.entries, p, m.max, a);
      SideApart(m.entries, r.entries, if a.key.asns then m.filters else m.asns, !a.key.asns, m.max);
    }
  }

  /** The two kinds never evict each other. */
  lemma {:induction false} OtherPool(m: Memo, a: Answer)
    requires m.Valid() && a.weight > 0
    ensures if a.key.asns then Keep(m, a).filters == m.filters else Keep(m, a).asns == m.asns
    ensures SameOn(m.entries, Keep(m, a).entries, !a.key.asns)
  {
    if Keeps(m, a) { SideOther(m.entries, m.PoolFor(a.key), m.max, a); }
  }

  /** The answers of before that stay when a is put in front of them. */
  predicate Displaces(a: Answer, before: seq<Answer>, after: seq<Answer>, max: int) {
    after != [] && after[0] == a && after[1..] <= before &&
      (after[1..] != before ==> a.weight + Weights(before[..|after|]) > max)
  }

  lemma {:induction false} FrontFit(a: Answer, before: seq<Answer>, max: nat)
    requires a.weight <= max
    ensures Displaces(a, before, Fit([a] + before, max), max)
  {
    var all := [a] + before;
    FitIsLongest(all, max);
    var n := |Fit(all, max)|;
    assert all[..1] == [a] + [];
    WeightsFront(a, []);
    assert n > 0;
    assert all[..n][0] == a && all[..n][1..] == before[..n - 1];
    if n < |all| {
      assert all[..n + 1] == [a] + before[..n];
      WeightsFront(a, before[..n]);
    }
  }

  /** The answer just kept is never the one evicted: it stands first, with the longest part of the answers
      used before it that the bound leaves room for. */
  lemma {:induction false} NewestSurvives(m: Memo, a: Answer)
    requires m.Valid() && a.weight > 0 && Keeps(m, a)
    ensures Keep(m, a).Holds(a)
    ensures Displaces(a, m.PoolFor(a.key).lru, Keep(m, a).PoolFor(a.key).lru, m.max)
  {
    var before := m.PoolFor(a.key).lru;
    FrontFit(a, before, m.max);
    assert Fit([a] + before, m.max)[0].key == a.key;
    assert ([a] + before)[0].key == a.key;
  }

  lemma {:induction false} KeyOfPrefix(all: seq<Answer>, n: nat, i: nat)
    requires Distinct(all) && n <= |all| && i < |all|
    ensures HasKey(all[..n], all[i].key) <==> i < n
  {
    if i < n { assert all[..n][i] == all[i]; }
    if HasKey(all[..n], all[i].key) { var j :| 0 <= j < n && all[..n][j].key == all[i].key; }
  }

  lemma {:induction false} EntriesLead(entries: map<Key, Answer>, p: Pool, asns: bool, max: nat, a: Answer, i: nat)
    requires SideOk(entries, p, asns, max) && a.key !in entries && a.key.asns == asns && a.weight > 0 && i < |p.lru|
    ensures p.lru[i].key in KeptEntries(entries, p, a, max) <==> i + 1 < |KeptPool(p, a, max).lru|
  {
    var all := [a] + p.lru;
    FrontOk(entries, p, asns, max, a);
    FitIsLongest(all, max);
    KeyOfPrefix(all, |Fit(all, max)|, i + 1);
    KeyOfPrefix(all, |all|, i + 1);
    assert all[..|all|] == all && all[i + 1] == p.lru[i];
  }

  /** Of the answers before it, a leaves just those at the front of their list. */
  lemma {:induction false} SurvivorsLead(m: Memo, a: Answer, i: nat)
    requires m.Valid() && a.weight > 0 && Keeps(m, a) && i < |m.PoolFor(a.key).lru|
    ensures m.PoolFor(a.key).lru[i].key in Keep(m, a).entries <==> i + 1 < |Keep(m, a).PoolFor(a.key).lru|
  {
    EntriesLead(m.entries, m.PoolFor(a.key), a.key.asns, m.max, a, i);
  }

  /** keep adds no entry but a's own, and changes none. */
  lemma {:induction false} KeepAddsOnly(m: Memo, a: Answer, k: Key)
    requires a.weight > 0 && k in Keep(m, a).entries
    ensures if k in m.entries then Keep(m, a).entries[k] == m.entries[k] else k == a.key && Keep(m, a).entries[k] == a
  {
  }

  // ---- a lookup that hits ----

  function IndexOf(as_: seq<Answer>, k: Key): (i: nat)
    requires HasKey(as_, k)
    ensures i < |as_| && as_[i].key == k
  {
    if as_[0].key == k then 0 else
    assert HasKey(as_[1..], k) by { var j :| 0 <= j < |as_| && as_[j].key == k; assert as_[1..][j - 1].key == k; }
    1 + IndexOf(as_[1..], k)
  }

  function ToFront(as_: seq<Answer>, i: nat): seq<Answer>
    requires i < |as_|
  {
    [as_[i]] + as_[..i] + as_[i + 1..]
  }

  /** The memo after a lookup of k that it answers. */
  function Touch(m: Memo, k: Key): Memo
    requires k in m.entries && HasKey(m.PoolFor(k).lru, k)
  {
    var p := m.PoolFor(k);
    m.WithPool(k, p.(lru := ToFront(p.lru, IndexOf(p.lru, k)))).(stats := m.stats.(hits := m.stats.hits + 1))
  }

  lemma {:induction false} WeightsJoin(as_: seq<Answer>, bs: seq<Answer>)
    ensures Weights(as_ + bs) == Weights(as_) + Weights(bs)
    decreases |bs|
  {
    if bs == [] {
      assert as_ + bs == as_;
    } else {
      assert (as_ + bs)[..|as_ + bs| - 1] == as_ + bs[..|bs| - 1];
      WeightsJoin(as_, bs[..|bs| - 1]);
    }
  }

  lemma {:induction false} WeightsSwap(a: seq<Answer>, b: seq<Answer>, c: seq<Answer>)
    ensures Weights(a + b + c) == Weights(b + a + c)
  {
    WeightsJoin(a + b, c);
    WeightsJoin(a, b);
    WeightsJoin(b + a, c);
    WeightsJoin(b, a);
  }

  lemma {:induction false} ToFrontWeights(as_: seq<Answer>, i: nat)
    requires i < |as_|
    ensures Weights(ToFront(as_, i)) == Weights(as_)
  {
    assert as_ == as_[..i] + [as_[i]] + as_[i + 1..];
    WeightsSwap(as_[..i], [as_[i]], as_[i + 1..]);
  }

  /** Where each answer of a list with its i-th at the front came from. */
  function Origin(i: nat, j: nat): nat { if j == 0 then i else if j <= i then j - 1 else j }

  lemma {:induction false} ToFrontAt(as_: seq<Answer>, i: nat)
    requires i < |as_|
    ensures |ToFront(as_, i)| == |as_| && forall j :: 0 <= j < |as_| ==> ToFront(as_, i)[j] == as_[Origin(i, j)]
  {
  }

  lemma {:induction false} ToFrontDistinct(as_: seq<Answer>, i: nat)
    requires i < |as_| && Distinct(as_)
    ensures Distinct(ToFront(as_, i))
  {
    ToFrontAt(as_, i);
    var bs := ToFront(as_, i);
    forall x, y | 0 <= x < y < |bs| ensures bs[x].key != bs[y].key {
      var u, v := Origin(i, x), Origin(i, y);
      if u < v { assert as_[u].key != as_[v].key; } else { assert as_[v].key != as_[u].key; }
    }
  }

  lemma {:induction false} ToFrontKeys(as_: seq<Answer>, i: nat, k: Key)
    requires i < |as_| && HasKey(as_, k)
    ensures HasKey(ToFront(as_, i), k)
  {
    var j :| 0 <= j < |as_| && as_[j].key == k;
    ToFrontAt(as_, i);
    var t := if j == i then 0 else if j < i then j + 1 else j;
    assert Origin(i, t) == j && ToFront(as_, i)[t].key == k;
  }

  lemma {:induction false} SideTouched(entries: map<Key, Answer>, p: Pool, asns: bool, max: int, i: nat)
    requires SideOk(entries, p, asns, max) && i < |p.lru|
    ensures SideOk(entries, p.(lru := ToFront(p.lru, i)), asns, max)
  {
    ToFrontWeights(p.lru, i);
    ToFrontDistinct(p.lru, i);
    ToFrontAt(p.lru, i);
    var lru := ToFront(p.lru, i);
    forall j | 0 <= j < |lru|
      ensures lru[j].key.asns == asns && lru[j].weight > 0 && lru[j].key in entries && entries[lru[j].key] == lru[j]
    {
      assert lru[j] == p.lru[Origin(i, j)];
    }
    forall k | k in entries && k.asns == asns ensures HasKey(lru, k) {
      ToFrontKeys(p.lru, i, k);
    }
  }

  /** A hit changes no entry and no weight: only the order of its own pool, in which its answer is now first. */
  lemma {:induction false} TouchValid(m: Memo, k: Key)
    requires m.Valid() && k in m.entries
    ensures Touch(m, k).Valid() && Touch(m, k).entries == m.entries
    ensures Touch(m, k).PoolFor(k).lru != [] && Touch(m, k).PoolFor(k).lru[0] == m.entries[k]
  {
    var p := m.PoolFor(k);
    SideTouched(m.entries, p, k.asns, m.max, IndexOf(p.lru, k));
  }

  // ---- a chain of memos ----

  predicate AllValid(ms: seq<Memo>) { ms == [] || (ms[0].Valid() && AllValid(ms[1..])) }

  predicate Held(ms: seq<Memo>, k: Key) { exists i :: 0 <= i < |ms| && k in ms[i].entries }

  function Counted(m: Memo, hit: bool): Memo {
    m.(stats := if hit then m.stats.(hits := m.stats.hits + 1) else m.stats.(misses := m.stats.misses + 1))
  }

  datatype Lookup = Lookup(memos: seq<Memo>, answer: Option<Answer>)

  /** get: ms is the chain, the layer that is asked first. */
  function Get(ms: seq<Memo>, k: Key): (r: Lookup)
    requires AllValid(ms)
    ensures |r.memos| == |ms|
    ensures r.answer.Some? ==> r.answer.value.weight > 0
    decreases |ms|
  {
    if ms == [] then Lookup([], None)
    else if k in ms[0].entries then
      assert ms[0].entries[k].weight > 0 by { PositiveWeight(ms[0], k); }
      Lookup([Touch(ms[0], k)] + ms[1..], Some(ms[0].entries[k]))
    else
      var below := Get(ms[1..], k);
      if below.answer.Some? then Lookup([Keep(Counted(ms[0], true), below.answer.value)] + below.memos, below.answer)
      else Lookup([Counted(ms[0], false)] + below.memos, None)
  }

  lemma {:induction false} PositiveWeight(m: Memo, k: Key)
    requires m.Valid() && k in m.entries
    ensures m.entries[k].weight > 0 && m.entries[k].key == k
  {
    var p := m.PoolFor(k);
    var i := IndexOf(p.lru, k);
    assert m.Holds(p.lru[i]);
  }

  lemma {:induction false} CountedValid(m: Memo, hit: bool)
    requires m.Valid()
    ensures Counted(m, hit).Valid()
  {
  }

  lemma {:induction false} ValidCons(m: Memo, rest: seq<Memo>)
    requires m.Valid() && AllValid(rest)
    ensures AllValid([m] + rest)
  {
    assert ([m] + rest)[1..] == rest;
  }

  /** The i-th memo is the first to hold k, its answer is the one given, and no memo below it changed. */
  ghost predicate AnsweredBy(ms: seq<Memo>, k: Key, r: Lookup, i: nat) {
    |r.memos| == |ms| && i < |ms| && k in ms[i].entries && r.answer == Some(ms[i].entries[k]) && !Held(ms[..i], k) &&
      r.memos[i + 1..] == ms[i + 1..]
  }

  /** A lookup is answered when some memo of the chain holds the key, by the first that does, with an answer
      to that very key; the memos below that one do not change, and every memo stays valid. */
  lemma {:induction false} GetFinds(ms: seq<Memo>, k: Key)
    requires AllValid(ms)
    ensures AllValid(Get(ms, k).memos)
    ensures Get(ms, k).answer.Some? <==> Held(ms, k)
    ensures Held(ms, k) ==> Get(ms, k).answer.value.key == k && exists i :: AnsweredBy(ms, k, Get(ms, k), i)
    decreases |ms|
  {
    if ms != [] {
      var r := Get(ms, k);
      if k in ms[0].entries {
        TouchValid(ms[0], k);
        PositiveWeight(ms[0], k);
        ValidCons(Touch(ms[0], k), ms[1..]);
        assert AnsweredBy(ms, k, r, 0);
      } else {
        var rest := ms[1..];
        GetFinds(rest, k);
        var below := Get(rest, k);
        CountedValid(ms[0], below.answer.Some?);
        HeldShift(ms, k, |ms|);
        assert ms[..|ms|] == ms;
        if below.answer.Some? {
          KeepValid(Counted(ms[0], true), below.answer.value);
          ValidCons(Keep(Counted(ms[0], true), below.answer.value), below.memos);
          var i :| AnsweredBy(rest, k, below, i);
          AnsweredAbove(ms, k, r, below, i);
        } else {
          ValidCons(Counted(ms[0], false), below.memos);
        }
      }
    }
  }

  lemma {:induction false} AnsweredAbove(ms: seq<Memo>, k: Key, r: Lookup, below: Lookup, i: nat)
    requires ms != [] && k !in ms[0].entries && AnsweredBy(ms[1..], k, below, i)
    requires |r.memos| == |ms| && r.memos[1..] == below.memos && r.answer == below.answer
    ensures AnsweredBy(ms, k, r, i + 1)
  {
    var rest := ms[1..];
    assert ms[i + 1] == rest[i] && r.memos[i + 2..] == r.memos[1..][i + 1..] && ms[i + 2..] == rest[i + 1..];
    HeldShift(ms, k, i + 1);
    assert ms[..i + 1][1..] == rest[..i];
  }

  lemma {:induction false} HeldShift(ms: seq<Memo>, k: Key, n: nat)
    requires 0 < n <= |ms| && k !in ms[0].entries
    ensures Held(ms[..n], k) <==> Held(ms[..n][1..], k)
  {
    if Held(ms[..n], k) {
      var i :| 0 <= i < n && k in ms[..n][i].entries;
      assert ms[..n][1..][i - 1] == ms[i];
    }
    if Held(ms[..n][1..], k) {
      var i :| 0 <= i < n - 1 && k in ms[..n][1..][i].entries;
      assert ms[..n][i + 1] == ms[..n][1..][i];
    }
  }

  /** What a layer answers from below it keeps, exactly when four times its weight is within its bound. */
  lemma {:induction false} LayerKeepsHits(ms: seq<Memo>, k: Key)
    requires AllValid(ms) && ms != [] && Held(ms, k)
    ensures var r := Get(ms, k);
            r.answer.Some? &&
            (r.memos[0].Holds(r.answer.value) <==> k in ms[0].entries || 4 * r.answer.value.weight <= ms[0].max)
  {
    GetFinds(ms, k);
    var r := Get(ms, k);
    if k in ms[0].entries {
      PositiveWeight(ms[0], k);
    } else {
      CountedValid(ms[0], true);
      QuarterIs(r.answer.value.weight, ms[0].max);
      if Keeps(Counted(ms[0], true), r.answer.value) { NewestSurvives(Counted(ms[0], true), r.answer.value); }
    }
  }

  function Reached(was: Stats, hit: bool): Stats {
    if hit then Stats(was.hits + 1, was.misses, was.peerDependent)
    else Stats(was.hits, was.misses + 1, was.peerDependent)
  }

  lemma {:induction false} FirstCounts(ms: seq<Memo>, k: Key)
    requires AllValid(ms) && ms != []
    ensures var r := Get(ms, k); r.memos[0].stats == Reached(ms[0].stats, r.answer.Some?)
  {
    if k !in ms[0].entries {
      var below := Get(ms[1..], k);
      if below.answer.Some? { KeepCounts(Counted(ms[0], true), below.answer.value); }
    }
  }

  lemma {:induction false} KeepCounts(m: Memo, a: Answer)
    requires a.weight > 0
    ensures Keep(m, a).stats == m.stats
  {
  }

  /** r counts in the i-th memo of ms, unless one before it holds k. */
  predicate CountsAt(ms: seq<Memo>, k: Key, r: Lookup, i: nat) {
    |r.memos| == |ms| && i < |ms| &&
    r.memos[i].stats == if Held(ms[..i], k) then ms[i].stats else Reached(ms[i].stats, r.answer.Some?)
  }

  lemma {:induction false} CountsBelow(ms: seq<Memo>, k: Key, r: Lookup, below: Lookup, i: nat)
    requires 0 < i < |ms| == |r.memos| && k !in ms[0].entries && CountsAt(ms[1..], k, below, i - 1)
    requires r.memos[1..] == below.memos && r.answer == below.answer
    ensures CountsAt(ms, k, r, i)
  {
    HeldShift(ms, k, i);
    assert ms[..i][1..] == ms[1..][..i - 1] && r.memos[i] == below.memos[i - 1];
  }

  lemma {:induction false} CountsNotBelow(ms: seq<Memo>, k: Key, r: Lookup, i: nat)
    requires 0 < i < |ms| == |r.memos| && k in ms[0].entries && r.memos[1..] == ms[1..]
    ensures CountsAt(ms, k, r, i)
  {
    assert k in ms[..i][0].entries && r.memos[i] == r.memos[1..][i - 1] && ms[i] == ms[1..][i - 1];
  }

  /** A lookup counts once in every memo it reaches, as a hit exactly if it is answered: it reaches a memo unless one
      before it holds the key. */
  lemma {:induction false} GetCounts(ms: seq<Memo>, k: Key, i: nat)
    requires AllValid(ms) && i < |ms|
    ensures CountsAt(ms, k, Get(ms, k), i)
    decreases |ms|
  {
    if i == 0 {
      FirstCounts(ms, k);
      assert ms[..0] == [];
    } else if k in ms[0].entries {
      GetHit(ms, k);
      CountsNotBelow(ms, k, Get(ms, k), i);
    } else {
      GetCounts(ms[1..], k, i - 1);
      GetBelow(ms, k);
      CountsBelow(ms, k, Get(ms, k), Get(ms[1..], k), i);
    }
  }

  lemma {:induction false} GetHit(ms: seq<Memo>, k: Key)
    requires AllValid(ms) && ms != [] && k in ms[0].entries
    ensures Get(ms, k).memos[1..] == ms[1..]
  {
  }

  lemma {:induction false} GetBelow(ms: seq<Memo>, k: Key)
    requires AllValid(ms) && ms != [] && k !in ms[0].entries
    ensures Get(ms, k).memos[1..] == Get(ms[1..], k).memos && Get(ms, k).answer == Get(ms[1..], k).answer
  {
  }

  /** A new answer is kept exactly when four times its weight is within the bound. */
  lemma {:induction false} KeptIff(m: Memo, a: Answer)
    requires m.Valid() && a.weight > 0 && a.key !in m.entries
    ensures a.key in Keep(m, a).entries <==> 4 * a.weight <= m.max
    ensures a.key in Keep(m, a).entries ==> Keep(m, a).Holds(a)
  {
    QuarterIs(a.weight, m.max);
    if Keeps(m, a) { NewestSurvives(m, a); }
  }

  /** store, in every memo of the chain by its own rules. */
  function Store(ms: seq<Memo>, a: Answer): (r: seq<Memo>)
    requires a.weight > 0
    ensures |r| == |ms|
  {
    if ms == [] || (a.err.Some? && !a.err.value.Memoizable()) then ms
    else [Keep(ms[0], a)] + Store(ms[1..], a)
  }

  /** The answer has no error, or one that the filter and the registry alone decide. */
  predicate Lasting(a: Answer) {
    a.err.None? || a.err.value.SetTooLarge? || a.err.value.NotEnumerable? || a.err.value.AnySet?
  }

  lemma {:induction false} StoreValid(ms: seq<Memo>, a: Answer)
    requires AllValid(ms) && a.weight > 0
    ensures AllValid(Store(ms, a))
    decreases |ms|
  {
    if ms != [] && Lasting(a) {
      KeepValid(ms[0], a);
      StoreValid(ms[1..], a);
      ValidCons(Keep(ms[0], a), Store(ms[1..], a));
    }
  }

  /** Some memo of the chain has a bound of at least four times a's weight. */
  predicate Fits(ms: seq<Memo>, a: Answer) { exists i :: 0 <= i < |ms| && 4 * a.weight <= ms[i].max }

  lemma {:induction false} FitsShift(ms: seq<Memo>, a: Answer)
    requires ms != []
    ensures Fits(ms, a) <==> 4 * a.weight <= ms[0].max || Fits(ms[1..], a)
  {
    if Fits(ms, a) {
      var i :| 0 <= i < |ms| && 4 * a.weight <= ms[i].max;
      if i > 0 { assert ms[1..][i - 1] == ms[i]; }
    }
    if Fits(ms[1..], a) {
      var i :| 0 <= i < |ms[1..]| && 4 * a.weight <= ms[1..][i].max;
      assert ms[i + 1] == ms[1..][i];
    }
  }

  /** A lookup after a new answer is stored finds it exactly when it is without error, or its error is that a set is
      too large, not enumerable or every set, and some memo has room for it; one that fails for any other reason is
      stored nowhere. */
  lemma {:induction false} StoreThenGet(ms: seq<Memo>, a: Answer)
    requires AllValid(ms) && a.weight > 0 && !Held(ms, a.key)
    ensures AllValid(Store(ms, a))
    ensures Get(Store(ms, a), a.key).answer ==
            if (a.err.None? || a.err.value.SetTooLarge? || a.err.value.NotEnumerable? || a.err.value.AnySet?) &&
               Fits(ms, a)
            then Some(a) else None
    ensures a.err.Some? && a.err.value.OtherFailure? ==> Store(ms, a) == ms
    decreases |ms|
  {
    StoreValid(ms, a);
    if !Lasting(a) {
      GetFinds(ms, a.key);
    } else if ms != [] {
      assert a.key !in ms[0].entries;
      HeldShift(ms, a.key, |ms|);
      assert ms[..|ms|] == ms;
      StoreThenGet(ms[1..], a);
      FitsShift(ms, a);
      assert Store(ms, a)[0] == Keep(ms[0], a) && Store(ms, a)[1..] == Store(ms[1..], a);
      KeptIff(ms[0], a);
      FirstAnswers(Store(ms, a), a);
    }
  }

  /** A lookup is answered by the first memo if it holds the key, and by those below otherwise. */
  lemma {:induction false} FirstAnswers(ms: seq<Memo>, a: Answer)
    requires AllValid(ms) && ms != []
    ensures ms[0].Holds(a) ==> Get(ms, a.key).answer == Some(a)
    ensures a.key !in ms[0].entries ==> Get(ms, a.key).answer == Get(ms[1..], a.key).answer
  {
  }

  // ---- weights ----

  function SetsWeight(ss: seq<set<nat>>): nat { if ss == [] then 0 else SetsWeight(ss[..|ss| - 1]) + |ss[|ss| - 1]| }

  function PathsWeight(ps: seq<seq<set<nat>>>): nat {
    if ps == [] then 0 else PathsWeight(ps[..|ps| - 1]) + SetsWeight(ps[|ps| - 1])
  }

  function ConjunctsWeight(cs: seq<Conjunct>): nat {
    if cs == [] then 0
    else var c := cs[|cs| - 1];
      ConjunctsWeight(cs[..|cs| - 1]) + |c.prefixes| + |c.notPrefixes| + PathsWeight(c.paths)
  }

  function WeightOf(v: Value): (w: nat)
    ensures w > 0
  {
    match v
    case Normal(cs) => 1 + ConjunctsWeight(cs)
    case Expanded(members, missing) => 1 + |members| + |missing|
  }

  /** The loops of put: one plus every range and every AS of the AS-path tests' sets. */
  method Weigh(cs: seq<Conjunct>) returns (w: nat)
    ensures w == WeightOf(Normal(cs))
  {
    w := 1;
    for i := 0 to |cs|
      invariant w == 1 + ConjunctsWeight(cs[..i])
    {
      var c := cs[i];
      w := w + |c.prefixes| + |c.notPrefixes|;
      ghost var base := w;
      for j := 0 to |c.paths|
        invariant w == base + PathsWeight(c.paths[..j])
      {
        var p := c.paths[j];
        ghost var inner := w;
        for n := 0 to |p|
          invariant w == inner + SetsWeight(p[..n])
        {
          w := w + |p[n]|;
          assert p[..n + 1][..n] == p[..n];
        }
        assert p[..|p|] == p && c.paths[..j + 1][..j] == c.paths[..j];
      }
      assert c.paths[..|c.paths|] == c.paths && cs[..i + 1][..i] == cs[..i];
    }
    assert cs[..|cs|] == cs;
  }
}
