/** One evaluation pass of a filter, as a function of the previous pass's filter-set values
    (resolve/expand_more.go:331-525). A back-edge to a filter-set being evaluated takes its value of
    the pass before; a filter-set is evaluated once per pass. */
module FilterPasses {
  import opened Prefixes
  import opened RangeIndex
  import opened Filters

  type Values = map<string, Ranges>

  /** value is None when a term denotes no finite set of prefixes; cyclic when a back-edge was taken. */
  datatype Pass = Pass(value: Option<Ranges>, memo: Values, cyclic: bool)

  datatype ListPass = ListPass(values: Option<seq<Ranges>>, memo: Values, cyclic: bool)

  predicate GoodValues(env: Env, m: Values) { m.Keys <= env.sets.Keys && forall n :: n in m ==> Good(env.afi, m[n]) }

  function Eval(env: Env, f: Filter, approx: Values, active: set<string>, memo: Values): (p: Pass)
    requires env.Valid() && WellFormed(f) && GoodValues(env, approx) && GoodValues(env, memo)
    ensures GoodValues(env, p.memo) && (p.value.Some? ==> Good(env.afi, p.value.value))
    decreases env.sets.Keys - active, Size(f)
  {
    match f
    case FAny => Pass(Some(Everything(env.afi)), memo, false)
    case FPrefixList(rs) => Pass(Some(Listed(env.afi, rs)), memo, false)
    case FSource(k, op) =>
      if k in env.failing then Pass(None, memo, false) else Pass(Some(PutOps(env.afi, env.Source(k), op)), memo, false)
    case FAnySet(op) =>
      if !env.anyAll then Pass(None, memo, false) else Pass(Some(PutOps(env.afi, Everything(env.afi), op)), memo, false)
    case FFilterSet(n, op) =>
      var p := SetValue(env, n, approx, active, memo);
      if p.value.None? || op.IsZero() then p else p.(value := Some(PutOps(env.afi, p.value.value, op)))
    case FOr(ts) =>
      var p := EvalAll(env, ts, approx, active, memo);
      Pass(if p.values.None? then None else Some(UnionOf(p.values.value)), p.memo, p.cyclic)
    case FAnd(ts) =>
      var p := EvalAll(env, ts, approx, active, memo);
      Pass(if p.values.None? then None else Some(MeetOf(p.values.value)), p.memo, p.cyclic)
    case FNot(_) => Pass(None, memo, false)
    case FTest(_, _) => Pass(None, memo, false)
  }

  function EvalAll(env: Env, ts: seq<Filter>, approx: Values, active: set<string>, memo: Values): (p: ListPass)
    requires env.Valid() && (forall t :: t in ts ==> WellFormed(t)) && GoodValues(env, approx) && GoodValues(env, memo)
    ensures GoodValues(env, p.memo)
    ensures p.values.Some? ==> Good(env.afi, UnionOf(p.values.value)) && forall v :: v in p.values.value ==>
            Good(env.afi, v)
    decreases env.sets.Keys - active, SizeAll(ts)
  {
    if ts == [] then ListPass(Some([]), memo, false)
    else
      var p := Eval(env, ts[0], approx, active, memo);
      if p.value.None? then ListPass(None, p.memo, p.cyclic)
      else
        var rest := EvalAll(env, ts[1..], approx, active, p.memo);
        ListPass(if rest.values.None? then None
          else Some([p.value.value] + rest.values.value), rest.memo, p.cyclic || rest.cyclic)
  }

  function SetValue(env: Env, n: string, approx: Values, active: set<string>, memo: Values): (p: Pass)
    requires env.Valid() && GoodValues(env, approx) && GoodValues(env, memo)
    ensures GoodValues(env, p.memo) && (p.value.Some? ==> Good(env.afi, p.value.value))
    decreases env.sets.Keys - active, 0
  {
    if n in active then Pass(Some(Lookup(approx, n)), memo, true)
    else if n in memo then Pass(Some(memo[n]), memo, false)
    else if n !in env.sets then Pass(Some({}), memo, false)
    else
      Stored(Eval(env, env.sets[n], approx, active + {n}, memo), n)
  }

  /** The value of a pass over n's filter is n's from then on. */
  function Stored(p: Pass, n: string): Pass { if p.value.None? then p else p.(memo := p.memo[n := p.value.value]) }
}
