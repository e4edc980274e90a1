/** The memo as an object, one layered over another (resolve/filtermemo.go:101-228). An element of the map
    and its place in its pool's list are found by the key, which is in the list once. */
module FilterMemoLayers {
  import opened Prefixes
  import opened FilterMemos

  class FilterMemo {
    const max: int
    const shared: FilterMemo?
    ghost const below: seq<FilterMemo> // the memos this one is over, the lowest last
    var entries: map<Key, Answer>
    var filters: Pool
    var asns: Pool
    var stats: Stats

    /** NewFilterMemoOver; shared is null for NewFilterMemo. */
    constructor (shared: FilterMemo?, max: int)
      requires shared != null ==> shared.Layered()
      ensures Layered() && this.shared == shared && this.max == max && State() == Empty(max)
    {
      this.max, this.shared := max, shared;
      below := if shared == null then [] else [shared] + shared.below;
      entries, filters, asns, stats := map[], Pool(0, []), Pool(0, []), Stats(0, 0, 0);
    }

    ghost predicate Layered() { shared == First(below) && Linked(below) }

    ghost function State(): Memo
      reads this
    {
      Memo(max, entries, filters, asns, stats)
    }

    ghost function States(): (ms: seq<Memo>)
      reads this, below
      ensures |ms| == |below| + 1
    {
      [State()] + StatesOf(below)
    }

    /** A memo is not below itself. */
    lemma {:induction false} NotBelow()
      requires Layered()
      ensures this !in below
    {
      LinkedShorter(below);
    }

    /** keep. */
    method KeepOwn(a: Answer)
      requires State().Valid() && a.weight > 0
      modifies this`entries, this`filters, this`asns
      ensures State() == Keep(old(State()), a)
    {
      if a.key in entries { return; }
      if a.weight > Quarter(max) { return; }
      var p := if a.key.asns then asns else filters;
      FrontOk(entries, p, a.key.asns, max, a);
      WeightsFront(a, p.lru);
      p := Pool(p.held + a.weight, [a] + p.lru);
      entries, p := Evict(entries[a.key := a], p, max);
      if a.key.asns { asns := p; } else { filters := p; }
    }

    /** A lookup this memo answers: its answer moves to the front of its pool. */
    method OwnHit(k: Key) returns (a: Answer)
      requires Layered() && State().Valid() && k in entries
      modifies this
      ensures States() == [Touch(old(State()), k)] + old(StatesOf(below)) && a == old(entries)[k]
    {
      NotBelow();
      TouchOwn(k);
      a := entries[k];
    }

    method TouchOwn(k: Key)
      requires State().Valid() && k in entries
      modifies this`stats, this`asns, this`filters
      ensures State() == Touch(old(State()), k)
    {
      stats := stats.(hits := stats.hits + 1);
      if k.asns {
        asns := asns.(lru := ToFront(asns.lru, IndexOf(asns.lru, k)));
      } else {
        filters := filters.(lru := ToFront(filters.lru, IndexOf(filters.lru, k)));
      }
    }

    /** A lookup answered from below. */
    method SharedHit(a: Answer)
      requires Layered() && State().Valid() && a.weight > 0
      modifies this
      ensures States() == [Keep(Counted(old(State()), true), a)] + old(StatesOf(below))
    {
      NotBelow();
      CountedValid(State(), true);
      stats := stats.(hits := stats.hits + 1);
      KeepOwn(a);
    }

    method Miss()
      requires Layered()
      modifies this
      ensures States() == [Counted(old(State()), false)] + old(StatesOf(below))
    {
      NotBelow();
      stats := stats.(misses := stats.misses + 1);
    }

    /** get: the layer's own answer, or else one from below, which the layer then keeps. */
    method Get(k: Key) returns (a: Option<Answer>)
      requires Layered() && AllValid(States())
      modifies this, below
      ensures Lookup(States(), a) == FilterMemos.Get(old(States()), k) && AllValid(States())
      decreases |below|, 1
    {
      GetFinds(States(), k);
      ghost var m, rest := State(), StatesOf(below);
      ValidParts(m, rest);
      if k in entries {
        var own := OwnHit(k);
        a := Some(own);
        GetOwn(m, rest, k);
      } else {
        a := GetShared(k);
        GetOver(m, rest, k);
        if a.Some? { SharedHit(a.value); } else { Miss(); }
      }
    }

    /** The answer of the memos below, if there are any. */
    method GetShared(k: Key) returns (a: Option<Answer>)
      requires Layered() && AllValid(StatesOf(below))
      modifies below
      ensures State() == old(State()) && Lookup(StatesOf(below), a) == FilterMemos.Get(old(StatesOf(below)), k)
      decreases |below|, 0
    {
      a := None;
      NotBelow();
      if shared != null {
        assert below == [shared] + shared.below;
        a := shared.Get(k);
      }
    }

    /** store: in this memo, and then in those below. */
    method Store(a: Answer)
      requires Layered() && AllValid(States()) && a.weight > 0
      modifies this, below
      ensures States() == FilterMemos.Store(old(States()), a) && AllValid(States())
      decreases |below|, 1
    {
      StoreValid(States(), a);
      if a.err.Some? && !a.err.value.Memoizable() { return; }
      StoreLayer(State(), StatesOf(below), a);
      NotBelow();
      KeepOwn(a);
      StoreShared(a);
    }

    /** store in the memos below, if there are any. */
    method StoreShared(a: Answer)
      requires Layered() && AllValid(StatesOf(below)) && a.weight > 0
      modifies below
      ensures State() == old(State()) && StatesOf(below) == FilterMemos.Store(old(StatesOf(below)), a)
      decreases |below|, 0
    {
      NotBelow();
      if shared != null {
        assert below == [shared] + shared.below;
        shared.Store(a);
      }
    }

    /** An answer that read the peer: every memo of the chain counts it, and none keeps it. */
    method CountPeer()
      requires Layered()
      modifies this, below
      ensures States() == CountAll(old(States()))
    {
      CountEach();
      CountedStates(below);
    }

    method CountEach()
      requires Layered()
      modifies this, below
      ensures State() == OnePeer(old(State())) && forall m :: m in below ==> m.State() == OnePeer(old(m.State()))
    {
      NotBelow();
      stats := stats.(peerDependent := stats.peerDependent + 1);
      var x := shared;
      ghost var done: set<FilterMemo>, rest := {}, below;
      LinkedShorter(below);
      while x != null
        invariant x == First(rest) && Linked(rest) && (forall m :: m in below <==> m in done || m in rest)
        invariant State() == OnePeer(old(State())) && Apart(done, rest)
        invariant forall m :: m in done ==> m.State() == OnePeer(old(m.State()))
        invariant forall m :: m in rest ==> m.State() == old(m.State())
        decreases |rest|
      {
        LinkedShorter(rest[1..]);
        assert x in rest && x !in rest[1..] && x !in done;
        x.stats := x.stats.(peerDependent := x.stats.peerDependent + 1);
        done, rest := done + {x}, rest[1..];
        x := x.shared;
      }
    }

    /** put of a NormalizeFilter answer. */
    method Put(k: Key, cs: seq<Conjunct>, err: Option<Failure>, usedPeer: bool)
      requires Layered() && AllValid(States())
      modifies this, below
      ensures AllValid(States())
      ensures usedPeer ==> States() == CountAll(old(States()))
      ensures !usedPeer ==>
              States() == FilterMemos.Store(old(States()), Answer(k, Normal(cs), err, WeightOf(Normal(cs))))
    {
      if usedPeer {
        CountAllValid(States());
        CountPeer();
        return;
      }
      var w := Weigh(cs);
      Store(Answer(k, Normal(cs), err, w));
    }

    /** putASNs of an ExpandAS answer. */
    method PutAsns(k: Key, members: set<nat>, missing: seq<string>, err: Option<Failure>)
      requires Layered() && AllValid(States())
      modifies this, below
      ensures AllValid(States())
      ensures States() == FilterMemos.Store(old(States()),
              Answer(k, Expanded(members, missing), err, WeightOf(Expanded(members, missing))))
    {
      var w := 1 + |members| + |missing|;
      assert w == WeightOf(Expanded(members, missing));
      Store(Answer(k, Expanded(members, missing), err, w));
    }
  }

  ghost function First(ms: seq<FilterMemo>): FilterMemo? { if ms == [] then null else ms[0] }

  ghost function StatesOf(ms: seq<FilterMemo>): (ss: seq<Memo>)
    reads ms
    ensures |ss| == |ms|
  {
    if ms == [] then [] else [ms[0].State()] + StatesOf(ms[1..])
  }

  /** Each memo is over the next. */
  ghost predicate Linked(ms: seq<FilterMemo>) {
    ms == [] || (ms[0].below == ms[1..] && ms[0].shared == First(ms[1..]) && Linked(ms[1..]))
  }

  ghost predicate Apart(done: set<FilterMemo>, rest: seq<FilterMemo>) {
    (forall m :: m in rest ==> |m.below| < |rest|) && (forall m :: m in done ==> |m.below| >= |rest|)
  }

  lemma {:induction false} LinkedShorter(ms: seq<FilterMemo>)
    requires Linked(ms)
    ensures forall m :: m in ms ==> |m.below| < |ms|
  {
    if ms != [] { LinkedShorter(ms[1..]); }
  }

  lemma {:induction false} ValidParts(m: Memo, rest: seq<Memo>)
    requires AllValid([m] + rest)
    ensures m.Valid() && AllValid(rest)
  {
    assert ([m] + rest)[0] == m && ([m] + rest)[1..] == rest;
  }

  /** A lookup the first memo answers. */
  lemma {:induction false} GetOwn(m: Memo, rest: seq<Memo>, k: Key)
    requires AllValid([m] + rest) && m.Valid() && k in m.entries
    ensures FilterMemos.Get([m] + rest, k) == Lookup([Touch(m, k)] + rest, Some(m.entries[k]))
  {
    assert ([m] + rest)[0] == m && ([m] + rest)[1..] == rest;
  }

  /** A lookup it does not. */
  lemma {:induction false} GetOver(m: Memo, rest: seq<Memo>, k: Key)
    requires AllValid([m] + rest) && AllValid(rest) && k !in m.entries
    ensures var r := FilterMemos.Get(rest, k);
            FilterMemos.Get([m] + rest, k) ==
            if r.answer.Some? then Lookup([Keep(Counted(m, true), r.answer.value)] + r.memos, r.answer)
            else Lookup([Counted(m, false)] + r.memos, None)
  {
    assert ([m] + rest)[0] == m && ([m] + rest)[1..] == rest;
  }

  lemma {:induction false} StoreLayer(m: Memo, rest: seq<Memo>, a: Answer)
    requires AllValid([m] + rest) && a.weight > 0 && (a.err.Some? ==> a.err.value.Memoizable())
    ensures m.Valid() && AllValid(rest) && FilterMemos.Store([m] + rest, a) == [Keep(m, a)] + FilterMemos.Store(rest, a)
  {
    assert ([m] + rest)[0] == m && ([m] + rest)[1..] == rest;
  }

  function OnePeer(m: Memo): Memo { m.(stats := m.stats.(peerDependent := m.stats.peerDependent + 1)) }

  function CountAll(ms: seq<Memo>): seq<Memo> { if ms == [] then [] else [OnePeer(ms[0])] + CountAll(ms[1..]) }

  /** Every memo of the chain counts it once, and nothing else of it changes. */
  lemma {:induction false} CountAllCounts(ms: seq<Memo>, i: nat)
    requires i < |ms|
    ensures |CountAll(ms)| == |ms|
    ensures var was, is_ := ms[i], CountAll(ms)[i];
            is_.(stats := was.stats) == was && is_.stats.peerDependent - was.stats.peerDependent == 1 &&
            is_.stats.hits == was.stats.hits && is_.stats.misses == was.stats.misses
    decreases |ms|
  {
    if i > 0 { CountAllCounts(ms[1..], i - 1); } else { CountAllLength(ms); }
  }

  lemma {:induction false} CountAllLength(ms: seq<Memo>)
    ensures |CountAll(ms)| == |ms|
    decreases |ms|
  {
    if ms != [] { CountAllLength(ms[1..]); }
  }

  lemma {:induction false} CountAllValid(ms: seq<Memo>)
    requires AllValid(ms)
    ensures AllValid(CountAll(ms))
  {
    if ms != [] {
      CountAllValid(ms[1..]);
      ValidCons(OnePeer(ms[0]), CountAll(ms[1..]));
    }
  }

  twostate lemma CountedStates(ms: seq<FilterMemo>)
    requires forall m :: m in ms ==> m.State() == OnePeer(old(m.State()))
    ensures StatesOf(ms) == CountAll(old(StatesOf(ms)))
  {
    if ms != [] { CountedStates(ms[1..]); }
  }
}
