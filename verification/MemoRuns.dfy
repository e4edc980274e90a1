/** Runs of a chain of memos that many callers use at once: every step one holder of one memo's lock takes,
    in any order (resolve/filtermemo.go:135-228, resolve/normalize.go:133-159, resolve/expander.go:169-184). */
module MemoRuns {
  import opened Prefixes
  import opened FilterMemos
  import opened MemoTexts

  // ---- what is asked, and the key it has ----

  /** A filter to normalize, or an as-set to expand; the limits are the effective ones. */
  datatype Request =
    | ForFilter(filter: Filter, afi: Afi, depth: int, prefixes: int, visited: int, conjuncts: int)
    | ForSet(source: string, name: string, depth: int, visited: int)
  {
    /** A registry's name holds no ':', and a set's name no two of them in a row. */
    predicate Valid() {
      ForSet? ==> (forall i :: 0 <= i < |source| ==> source[i] != ':') && !HasScope(name)
    }
  }

  predicate HasScope(s: string) { exists i :: 0 < i < |s| && s[i - 1] == ':' && s[i] == ':' }

  function RefText(source: string, name: string): string { if source == "" then name else source + "::" + name }

  function KeyOf(esc: Escapes, r: Request): Option<Key> {
    match r
    case ForFilter(f, afi, d, p, v, c) =>
      var t := MemoText(esc, f);
      if t.Some? then Some(Key(false, t.value, afi, d, p, v, c)) else None
    case ForSet(s, n, d, v) => Some(Key(true, RefText(s, n), AfiAny, d, 0, v, 0))
  }

  lemma {:induction false} RefTextInjective(s: string, n: string, s': string, n': string)
    requires ForSet(s, n, 0, 0).Valid() && ForSet(s', n', 0, 0).Valid() && RefText(s, n) == RefText(s', n')
    ensures s == s' && n == n'
  {
    var w := RefText(s, n);
    ScopeAt(s, n);
    ScopeAt(s', n');
    if s == "" || s' == "" {
      assert s == "" <==> !HasScope(w);
    } else {
      assert |s| == |s'|;
      assert s == w[..|s|] && n == w[|s| + 2..] && s' == w[..|s'|] && n' == w[|s'| + 2..];
    }
  }

  lemma {:induction false} ScopeAt(s: string, n: string)
    requires ForSet(s, n, 0, 0).Valid()
    ensures HasScope(RefText(s, n)) <==> s != ""
    ensures s != "" ==> RefText(s, n)[|s|] == ':' && forall i :: 0 <= i < |s| ==> RefText(s, n)[i] != ':'
  {
    if s != "" { assert RefText(s, n)[|s|] == ':' && RefText(s, n)[|s| + 1] == ':'; }
  }

  /** Two requests with one key are one request. */
  lemma {:induction false} KeyInjective(esc: Escapes, r: Request, q: Request)
    requires SoundEscapes(esc) && r.Valid() && q.Valid() && KeyOf(esc, r).Some? && KeyOf(esc, r) == KeyOf(esc, q)
    ensures r == q
  {
    if r.ForFilter? {
      MemoTextInjective(esc, r.filter, q.filter);
    } else {
      RefTextInjective(r.source, r.name, q.source, q.name);
    }
  }

  // ---- answers ----

  /** What a request is answered with when it is computed and neither the peer nor anything outside the
      snapshot decides it. */
  type Truth = Request -> (Value, Option<Failure>)

  /** a is what computing r came to: an answer to its key, of its weight. */
  predicate Computed(esc: Escapes, r: Request, a: Answer) {
    r.Valid() && KeyOf(esc, r) == Some(a.key) && a.weight == WeightOf(a.value)
  }

  predicate IsAnswerTo(esc: Escapes, truth: Truth, r: Request, a: Answer) {
    Computed(esc, r, a) && (a.value, a.err) == truth(r)
  }

  /** The computation broke off: a context or a Source failed it, not the request. */
  predicate Broke(a: Answer) { a.err.Some? && a.err.value.OtherFailure? }

  /** a is what some request with its key is answered with, and not a failure of anything else. */
  ghost predicate Right(esc: Escapes, truth: Truth, a: Answer) {
    !Broke(a) && exists r :: IsAnswerTo(esc, truth, r, a)
  }

  // ---- steps ----

  /** The chain, the answers some caller has computed, and those some caller has found in a memo. */
  datatype World = World(chain: seq<Memo>, computed: set<Answer>, found: set<Answer>)

  datatype Step =
    | Compute(r: Request, a: Answer)     // a caller computes an answer, or breaks off
    | Hit(i: nat, k: Key)                // a lookup that memo i answers
    | Count(i: nat, stats: Stats)        // a miss, or an answer found for one peer only
    | Put(i: nat, a: Answer)             // an answer computed is stored in memo i
    | Layer(i: nat, a: Answer)           // an answer found below is kept in memo i
    | Forget(a: Answer)                  // a caller is done with an answer

  ghost predicate Enabled(esc: Escapes, truth: Truth, w: World, s: Step) {
    match s
    case Compute(r, a) => IsAnswerTo(esc, truth, r, a) || (Computed(esc, r, a) && Broke(a))
    case Hit(i, k) => i < |w.chain| && w.chain[i].Valid() && k in w.chain[i].entries
    case Count(i, _) => i < |w.chain|
    case Put(i, a) => i < |w.chain| && a in w.computed && a.weight > 0
    case Layer(i, a) => i < |w.chain| && a in w.found && a.weight > 0
    case Forget(a) => true
  }

  ghost function After(esc: Escapes, truth: Truth, w: World, s: Step): World
    requires Enabled(esc, truth, w, s)
  {
    match s
    case Compute(_, a) => w.(computed := w.computed + {a})
    case Hit(i, k) => w.(chain := w.chain[i := Touch(w.chain[i], k)], found := w.found + {w.chain[i].entries[k]})
    case Count(i, st) => w.(chain := w.chain[i := w.chain[i].(stats := st)])
    case Put(i, a) => w.(chain := w.chain[i := Store([w.chain[i]], a)[0]])
    case Layer(i, a) => w.(chain := w.chain[i := Keep(w.chain[i], a)])
    case Forget(a) => w.(computed := w.computed - {a}, found := w.found - {a})
  }

  /** A run: each step is enabled where it is taken. */
  ghost predicate Runs(esc: Escapes, truth: Truth, w: World, steps: seq<Step>)
    decreases |steps|
  {
    steps == [] || (Enabled(esc, truth, w, steps[0]) && Runs(esc, truth, After(esc, truth, w, steps[0]), steps[1..]))
  }

  ghost function End(esc: Escapes, truth: Truth, w: World, steps: seq<Step>): World
    requires Runs(esc, truth, w, steps)
    decreases |steps|
  {
    if steps == [] then w else End(esc, truth, After(esc, truth, w, steps[0]), steps[1..])
  }

  /** Every memo is in order and holds right answers only; so is every answer found in one, and every answer computed
      that did not break off. */
  ghost predicate Safe(esc: Escapes, truth: Truth, w: World) {
    && (forall i :: 0 <= i < |w.chain| ==> SafeMemo(esc, truth, w.chain[i]))
    && (forall a :: a in w.found ==> Right(esc, truth, a))
    && (forall a :: a in w.computed ==> Broke(a) || Right(esc, truth, a))
  }

  ghost predicate SafeMemo(esc: Escapes, truth: Truth, m: Memo) {
    m.Valid() && forall k :: k in m.entries ==> Right(esc, truth, m.entries[k])
  }

  lemma {:induction false} EmptyChainSafe(esc: Escapes, truth: Truth, w: World)
    requires Starts(w)
    ensures Safe(esc, truth, w)
  {
  }

  /** Every memo is empty, and no caller has an answer. */
  predicate Starts(w: World) {
    w.computed == {} && w.found == {} && forall i :: 0 <= i < |w.chain| ==> w.chain[i] == Empty(w.chain[i].max)
  }

  lemma {:induction false} MemoStepSafe(esc: Escapes, truth: Truth, w: World, i: nat, m: Memo)
    requires Safe(esc, truth, w) && i < |w.chain| && SafeMemo(esc, truth, m)
    ensures Safe(esc, truth, w.(chain := w.chain[i := m]))
  {
  }

  lemma {:induction false} KeepSafe(esc: Escapes, truth: Truth, m: Memo, a: Answer)
    requires SafeMemo(esc, truth, m) && Right(esc, truth, a) && a.weight > 0
    ensures SafeMemo(esc, truth, Keep(m, a))
  {
    KeepValid(m, a);
    forall k | k in Keep(m, a).entries ensures Right(esc, truth, Keep(m, a).entries[k]) {
      KeepAddsOnly(m, a, k);
    }
  }

  /** Storing keeps a memo right, whatever the computation came to. */
  lemma {:induction false} PutSafe(esc: Escapes, truth: Truth, m: Memo, a: Answer)
    requires SafeMemo(esc, truth, m) && (Broke(a) || Right(esc, truth, a)) && a.weight > 0
    ensures SafeMemo(esc, truth, Store([m], a)[0])
  {
    if !Broke(a) { KeepSafe(esc, truth, m, a); }
  }

  lemma {:induction false} HitSafe(esc: Escapes, truth: Truth, w: World, i: nat, k: Key)
    requires Safe(esc, truth, w) && i < |w.chain| && w.chain[i].Valid() && k in w.chain[i].entries
    ensures Safe(esc, truth, After(esc, truth, w, Hit(i, k)))
  {
    TouchValid(w.chain[i], k);
    FoundSafe(esc, truth, w, i, Touch(w.chain[i], k), w.chain[i].entries[k]);
  }

  lemma {:induction false} FoundSafe(esc: Escapes, truth: Truth, w: World, i: nat, m: Memo, a: Answer)
    requires Safe(esc, truth, w) && i < |w.chain| && SafeMemo(esc, truth, m) && Right(esc, truth, a)
    ensures Safe(esc, truth, w.(chain := w.chain[i := m], found := w.found + {a}))
  {
  }

  lemma {:induction false} StoreSafe(esc: Escapes, truth: Truth, w: World, i: nat, a: Answer)
    requires Safe(esc, truth, w) && i < |w.chain| && a in w.computed && a.weight > 0
    ensures Safe(esc, truth, After(esc, truth, w, Put(i, a)))
  {
    PutSafe(esc, truth, w.chain[i], a);
    MemoStepSafe(esc, truth, w, i, Store([w.chain[i]], a)[0]);
  }

  lemma {:induction false} StepSafe(esc: Escapes, truth: Truth, w: World, s: Step)
    requires Safe(esc, truth, w) && Enabled(esc, truth, w, s)
    ensures Safe(esc, truth, After(esc, truth, w, s))
  {
    match s
    case Compute(r, a) => assert Broke(a) || Right(esc, truth, a);
    case Hit(i, k) =>
      HitSafe(esc, truth, w, i, k);
    case Count(i, st) =>
      CountValid(w.chain[i], st);
      MemoStepSafe(esc, truth, w, i, w.chain[i].(stats := st));
    case Put(i, a) =>
      StoreSafe(esc, truth, w, i, a);
    case Layer(i, a) =>
      KeepSafe(esc, truth, w.chain[i], a);
      MemoStepSafe(esc, truth, w, i, Keep(w.chain[i], a));
    case Forget(_) =>
  }

  lemma {:induction false} CountValid(m: Memo, st: Stats)
    requires m.Valid()
    ensures m.(stats := st).Valid()
  {
  }

  /** Over every run, every memo stays in order, within its bounds, and right. */
  lemma {:induction false} RunSafe(esc: Escapes, truth: Truth, w: World, steps: seq<Step>)
    requires Safe(esc, truth, w) && Runs(esc, truth, w, steps)
    ensures Safe(esc, truth, End(esc, truth, w, steps))
    decreases |steps|
  {
    if steps != [] {
      StepSafe(esc, truth, w, steps[0]);
      RunSafe(esc, truth, After(esc, truth, w, steps[0]), steps[1..]);
    }
  }

  /** The memo is transparent: after any run from an empty chain, computations that broke off and all, a lookup for a
      request is answered, if it is, with what computing that request gives; no memo holds a failure that is not the
      request's; and each pool weighs what its answers do, within its bound. */
  lemma {:induction false} Transparent(esc: Escapes, truth: Truth, w: World, steps: seq<Step>, i: nat, r: Request)
    requires SoundEscapes(esc) && r.Valid() && KeyOf(esc, r).Some?
    requires Starts(w) && Runs(esc, truth, w, steps) && i < |End(esc, truth, w, steps).chain|
    ensures var m, k := End(esc, truth, w, steps).chain[i], KeyOf(esc, r).value;
            && m.Valid()
            && (k in m.entries ==> m.entries[k].key == k && (m.entries[k].value, m.entries[k].err) == truth(r))
            && (k in m.entries && m.entries[k].err.Some? ==> !m.entries[k].err.value.OtherFailure?)
  {
    EmptyChainSafe(esc, truth, w);
    RunSafe(esc, truth, w, steps);
    var m, k := End(esc, truth, w, steps).chain[i], KeyOf(esc, r).value;
    assert SafeMemo(esc, truth, m);
    if k in m.entries {
      PositiveWeight(m, k);
      assert Right(esc, truth, m.entries[k]);
      var q :| IsAnswerTo(esc, truth, q, m.entries[k]);
      KeyInjective(esc, r, q);
    }
  }

  // ---- least recently used first ----

  /** A memo, when each key was last used, and the time. */
  datatype Timed = Timed(memo: Memo, last: map<Key, nat>, now: nat)

  /** One use of a memo: a hit, or an answer to keep. */
  datatype Use = UseHit(k: Key) | UseKeep(a: Answer)

  predicate CanUse(t: Timed, u: Use) {
    match u
    case UseHit(k) => t.memo.Valid() && k in t.memo.entries
    case UseKeep(a) => a.weight > 0
  }

  function Used(t: Timed, u: Use): Timed
    requires CanUse(t, u)
  {
    match u
    case UseHit(k) => Timed(Touch(t.memo, k), t.last[k := t.now], t.now + 1)
    case UseKeep(a) => Timed(Keep(t.memo, a), if Keeps(t.memo, a) then t.last[a.key := t.now] else t.last, t.now + 1)
  }

  predicate Usable(t: Timed, us: seq<Use>)
    decreases |us|
  {
    us == [] || (CanUse(t, us[0]) && Usable(Used(t, us[0]), us[1..]))
  }

  function UsedAll(t: Timed, us: seq<Use>): Timed
    requires Usable(t, us)
    decreases |us|
  {
    if us == [] then t else UsedAll(Used(t, us[0]), us[1..])
  }

  /** The list goes from the last used to the first. */
  predicate Ordered(as_: seq<Answer>, last: map<Key, nat>, now: nat) {
    && (forall i :: 0 <= i < |as_| ==> as_[i].key in last && last[as_[i].key] < now)
    && (forall i, j :: 0 <= i < j < |as_| ==> last[as_[i].key] > last[as_[j].key])
  }

  predicate InOrder(t: Timed) {
    t.memo.Valid() && Ordered(t.memo.filters.lru, t.last, t.now) && Ordered(t.memo.asns.lru, t.last, t.now)
  }

  /** The pool that does not hold answers for k. */
  function OtherLru(m: Memo, k: Key): seq<Answer> { if k.asns then m.filters.lru else m.asns.lru }

  lemma {:induction false} OtherKeys(m: Memo, k: Key)
    requires m.Valid()
    ensures forall i :: 0 <= i < |OtherLru(m, k)| ==> OtherLru(m, k)[i].key != k
  {
  }

  lemma {:induction false} OrderedLater(as_: seq<Answer>, last: map<Key, nat>, now: nat, k: Key)
    requires Ordered(as_, last, now) && forall i :: 0 <= i < |as_| ==> as_[i].key != k
    ensures Ordered(as_, last[k := now], now + 1)
  {
  }

  lemma {:induction false} OrderedFront(as_: seq<Answer>, last: map<Key, nat>, now: nat, i: nat)
    requires Ordered(as_, last, now) && Distinct(as_) && i < |as_|
    ensures Ordered(ToFront(as_, i), last[as_[i].key := now], now + 1)
  {
    ToFrontAt(as_, i);
    var bs, then_ := ToFront(as_, i), last[as_[i].key := now];
    forall x | 0 < x < |bs| ensures bs[x].key != as_[i].key && bs[x].key in last && last[bs[x].key] < now {
      var u := Origin(i, x);
      if u < i { assert as_[u].key != as_[i].key; } else { assert as_[i].key != as_[u].key; }
    }
    forall x, y | 0 <= x < y < |bs| ensures then_[bs[x].key] > then_[bs[y].key] {
      if x > 0 { assert last[as_[Origin(i, x)].key] > last[as_[Origin(i, y)].key]; }
    }
  }

  lemma {:induction false} OrderedKept(as_: seq<Answer>, last: map<Key, nat>, now: nat, a: Answer, max: nat)
    requires Ordered(as_, last, now) && forall i :: 0 <= i < |as_| ==> as_[i].key != a.key
    ensures Ordered(Fit([a] + as_, max), last[a.key := now], now + 1)
  {
    FitIsLongest([a] + as_, max);
    OrderedLater(as_, last, now, a.key);
    var all := [a] + as_;
    forall i | 0 < i < |all| ensures all[i] == as_[i - 1] {}
  }

  lemma {:induction false} HitInOrder(t: Timed, k: Key)
    requires InOrder(t) && k in t.memo.entries
    ensures InOrder(Used(t, UseHit(k)))
  {
    HitOwn(t.memo, t.last, t.now, k);
    HitOther(t.memo, t.last, t.now, k);
    TouchValid(t.memo, k);
    PoolsInOrder(Used(t, UseHit(k)), k);
  }

  lemma {:induction false} HitOwn(m: Memo, last: map<Key, nat>, now: nat, k: Key)
    requires m.Valid() && k in m.entries && Ordered(m.PoolFor(k).lru, last, now)
    ensures HasKey(m.PoolFor(k).lru, k) && Ordered(Touch(m, k).PoolFor(k).lru, last[k := now], now + 1)
  {
    var as_ := m.PoolFor(k).lru;
    TouchedLists(m, k);
    OrderedFront(as_, last, now, IndexOf(as_, k));
  }

  lemma {:induction false} HitOther(m: Memo, last: map<Key, nat>, now: nat, k: Key)
    requires m.Valid() && k in m.entries && Ordered(OtherLru(m, k), last, now)
    ensures HasKey(m.PoolFor(k).lru, k) && Ordered(OtherLru(Touch(m, k), k), last[k := now], now + 1)
  {
    TouchedLists(m, k);
    OtherKeys(m, k);
    OrderedLater(OtherLru(m, k), last, now, k);
  }

  lemma {:induction false} TouchedLists(m: Memo, k: Key)
    requires m.Valid() && k in m.entries
    ensures var p := m.PoolFor(k);
            && HasKey(p.lru, k) && p.lru[IndexOf(p.lru, k)].key == k && Distinct(p.lru)
            && Touch(m, k).PoolFor(k).lru == ToFront(p.lru, IndexOf(p.lru, k))
            && OtherLru(Touch(m, k), k) == OtherLru(m, k)
  {
  }

  lemma {:induction false} KeepInOrder(t: Timed, a: Answer)
    requires InOrder(t) && a.weight > 0
    ensures InOrder(Used(t, UseKeep(a)))
  {
    KeepValid(t.memo, a);
    if Keeps(t.memo, a) {
      NewKey(t.memo, a);
      OrderedKept(t.memo.PoolFor(a.key).lru, t.last, t.now, a, t.memo.max);
      OtherKeys(t.memo, a.key);
      OrderedLater(OtherLru(t.memo, a.key), t.last, t.now, a.key);
      KeptLists(t.memo, a);
      PoolsInOrder(Used(t, UseKeep(a)), a.key);
    } else {
      OrderedWait(t.memo.filters.lru, t.last, t.now);
      OrderedWait(t.memo.asns.lru, t.last, t.now);
    }
  }

  lemma {:induction false} NewKey(m: Memo, a: Answer)
    requires m.Valid() && Keeps(m, a)
    ensures forall i :: 0 <= i < |m.PoolFor(a.key).lru| ==> m.PoolFor(a.key).lru[i].key != a.key
  {
  }

  lemma {:induction false} KeptLists(m: Memo, a: Answer)
    requires Keeps(m, a) && a.weight > 0
    ensures Keep(m, a).PoolFor(a.key).lru == Fit([a] + m.PoolFor(a.key).lru, m.max)
    ensures OtherLru(Keep(m, a), a.key) == OtherLru(m, a.key)
  {
  }

  lemma {:induction false} PoolsInOrder(t: Timed, k: Key)
    requires t.memo.Valid() && Ordered(t.memo.PoolFor(k).lru, t.last, t.now)
    requires Ordered(OtherLru(t.memo, k), t.last, t.now)
    ensures InOrder(t)
  {
  }

  lemma {:induction false} OrderedWait(as_: seq<Answer>, last: map<Key, nat>, now: nat)
    requires Ordered(as_, last, now)
    ensures Ordered(as_, last, now + 1)
  {
  }

  lemma {:induction false} UsedInOrder(t: Timed, u: Use)
    requires InOrder(t) && CanUse(t, u)
    ensures InOrder(Used(t, u))
  {
    match u
    case UseHit(k) => HitInOrder(t, k);
    case UseKeep(a) => KeepInOrder(t, a);
  }

  /** After any uses, each pool's list is in the order of last use. */
  lemma {:induction false} AlwaysInOrder(t: Timed, us: seq<Use>)
    requires InOrder(t) && Usable(t, us)
    ensures InOrder(UsedAll(t, us))
    decreases |us|
  {
    if us != [] {
      UsedInOrder(t, us[0]);
      AlwaysInOrder(Used(t, us[0]), us[1..]);
    }
  }

  /** So what keeping an answer evicts was used before everything of its kind that stays. */
  lemma {:induction false} EvictsLeastRecent(max: int, us: seq<Use>, a: Answer, k: Key, j: Key)
    requires Usable(Timed(Empty(max), map[], 0), us) && a.weight > 0
    requires var m := UsedAll(Timed(Empty(max), map[], 0), us).memo;
             k in m.entries && k !in Keep(m, a).entries && j in m.entries && j in Keep(m, a).entries && j.asns == k.asns
    ensures var t := UsedAll(Timed(Empty(max), map[], 0), us);
            k.asns == a.key.asns && k in t.last && j in t.last && t.last[k] < t.last[j]
  {
    var t := UsedAll(Timed(Empty(max), map[], 0), us);
    AlwaysInOrder(Timed(Empty(max), map[], 0), us);
    OtherPool(t.memo, a);
    var p := t.memo.PoolFor(k);
    SurvivorsLead(t.memo, a, IndexOf(p.lru, k));
    SurvivorsLead(t.memo, a, IndexOf(p.lru, j));
  }
}
