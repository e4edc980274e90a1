/** What a caller that wants a pipe can do once all threads are at rest (resolve/irrd/pipeline.go:77-223): it opens,
    joins or retires one, or a slot is promised and can be brought. */
module SlotIdle {
  import opened Prefixes
  import opened PipeSlots
  import opened SlotOwners

  // ---- a Source that is waited for has a thread that waits ----

  ghost predicate Counted(s: State) {
    forall src: SourceId :: s.Waits(src) > 0 ==> exists t :: CountedIn(s.At(t)) == Some(src)
  }

  /** After a step of u, a Source that is waited for has u or had another. */
  predicate CountMove(s: State, s': State, u: Thread, src: SourceId) {
    s'.Waits(src) > 0 ==>
      CountedIn(s'.At(u)) == Some(src) || (s.Waits(src) > 0 && CountedIn(s.At(u)) != Some(src))
  }

  lemma {:induction false} OpenCounts(s: State, max: nat, u: Thread, o: OpenStep, src: SourceId)
    requires Own(s, u) && CanOpen(s, max, u, o)
    ensures CountMove(s, AfterOpen(s, max, u, o), u, src)
  {
  }

  lemma {:induction false} UseCounts(s: State, u: Thread, a: UseStep, src: SourceId)
    requires Own(s, u) && CanUse(s, u, a)
    ensures CountMove(s, AfterUse(s, u, a), u, src)
  {
  }

  lemma {:induction false} RetireCounts(s: State, u: Thread, r: RetireStep, src: SourceId)
    requires Own(s, u) && CanRetire(s, u, r)
    ensures CountMove(s, AfterRetire(s, u, r), u, src)
  {
  }

  lemma {:induction false} CloseCounts(s: State, u: Thread, c: CloseStep, src: SourceId)
    requires Own(s, u) && CanClose(s, u, c)
    ensures CountMove(s, AfterClose(s, u, c), u, src)
  {
  }

  lemma {:induction false} ShutCounts(s: State, u: Thread, k: ShutStep, src: SourceId)
    requires Own(s, u) && CanShut(s, u, k)
    ensures CountMove(s, AfterShut(s, u, k), u, src)
  {
  }

  lemma {:induction false} StepCounts(s: State, max: nat, u: Thread, a: Step, src: SourceId)
    requires Inv(s) && Can(s, max, u, a)
    ensures CountMove(s, After(s, max, u, a), u, src)
  {
    assert Own(s, u);
    match a
    case Open(o) => OpenCounts(s, max, u, o, src);
    case Use(x) => UseCounts(s, u, x, src);
    case Retire(r) => RetireCounts(s, u, r, src);
    case Close(c) => CloseCounts(s, u, c, src);
    case DoShut(k) => ShutCounts(s, u, k, src);
  }

  lemma {:induction false} CountedKept(s: State, max: nat, u: Thread, a: Step)
    requires Inv(s) && Counted(s) && Can(s, max, u, a)
    ensures Counted(After(s, max, u, a))
  {
    var s' := After(s, max, u, a);
    StepGuarantee(s, max, u, a);
    forall src: SourceId | s'.Waits(src) > 0 ensures exists t :: CountedIn(s'.At(t)) == Some(src) {
      StepCounts(s, max, u, a, src);
      if CountedIn(s'.At(u)) != Some(src) {
        var t :| CountedIn(s.At(t)) == Some(src);
        assert s'.At(t) == s.At(t);
      }
    }
  }

  lemma {:induction false} EveryWaitCounted(max: nat, acts: seq<(Thread, Step)>)
    requires Play(max, acts).Some?
    ensures Counted(Play(max, acts).value)
    decreases |acts|
  {
    if acts != [] {
      var before, last := acts[..|acts| - 1], acts[|acts| - 1];
      EveryWaitCounted(max, before);
      EveryRun(max, before);
      CountedKept(Play(max, before).value, max, last.0, last.1);
    }
  }

  // ---- at rest ----

  /** A step that gets a caller of src a pipe: it takes a slot to open one, joins one of its own, or retires another's
      for its slot. */
  predicate Gets(s: State, src: SourceId, a: Step) {
    match a
    case Open(TrySlot(x)) => x == src
    case Use(Join(p)) => p in s.pipes && s.pipes[p].owner == src
    case Retire(Take(x, p)) => x == src
    case _ => false
  }

  /** A step that brings a promised slot nearer: the call it is for goes on with it, or an answer due on a retired pipe
      comes. */
  predicate Brings(s: State, w: Thread, a: Step) {
    match a
    case Retire(Ready) => s.At(w).Waiting?
    case Use(Finished(p)) => p in s.pipes && s.pipes[p].handoff.For? && s.pipes[p].load > 0
    case _ => false
  }

  lemma {:induction false} Unlocked(s: State)
    requires Inv(s) && Quiet(s)
    ensures s.reclaim.None?
  {
    forall t: Thread ensures s.reclaim != Some(t) {
      assert Own(s, t);
      assert s.At(t).Idle? || s.At(t).Waiting?;
    }
    match s.reclaim
    case None =>
    case Some(_) =>
  }

  /** A waiting call's slot is with it, or due. */
  lemma {:induction false} WaiterBrings(max: nat, acts: seq<(Thread, Step)>, t: Thread, w: Thread)
    returns (v: Thread, a: Step)
    requires Play(max, acts).Some? && Quiet(Play(max, acts).value)
    requires Play(max, acts).value.At(t).Idle? && Play(max, acts).value.At(w).Waiting?
    ensures var s := Play(max, acts).value; Can(s, max, v, a) && Brings(s, v, a)
  {
    var s := Play(max, acts).value;
    WaiterIsServed(max, acts, w);
    var h := s.At(w).h;
    if s.hands[h].given {
      v, a := w, Retire(Ready);
    } else {
      v, a := t, Use(Finished(s.hands[h].pipe));
    }
  }

  /** An owner of a slot gives an idle caller a pipe, or its slot is promised and can be brought. */
  lemma {:induction false} OwnerGives(max: nat, acts: seq<(Thread, Step)>, t: Thread, src: SourceId, o: Owner)
    returns (v: Thread, a: Step)
    requires Play(max, acts).Some? && Quiet(Play(max, acts).value) && Play(max, acts).value.At(t).Idle?
    requires o in Owners(Play(max, acts).value) && Play(max, acts).value.Waits(src) == 0
    ensures var s := Play(max, acts).value; Can(s, max, v, a) && ((v == t && Gets(s, src, a)) || Brings(s, v, a))
    ensures o.ByPipe? && Listed(Play(max, acts).value, o.pipe) ==> v == t && Gets(Play(max, acts).value, src, a)
  {
    var s := Play(max, acts).value;
    EveryRun(max, acts);
    OwnersIff(s, o);
    Unlocked(s);
    match o
    case ByThread(w) =>
      assert s.At(w).Idle? || s.At(w).Waiting?;
      v, a := w, Retire(Ready);
    case ByPipe(p) =>
      QuietPipe(s, p);
      if s.pipes[p].listed {
        v, a := t, if s.pipes[p].owner == src then Use(Join(p)) else Retire(Take(src, p));
      } else {
        v, a := t, Use(Finished(p));
      }
  }

  /** Once every thread is at rest, with slots at all, a caller that wants a pipe of src opens one whenever a slot is
      free; with none free, it joins or retires a listed pipe, if there is one and no other caller of src waits
      already; and otherwise a slot is promised to a call that waits, and can be brought. */
  lemma {:induction false} IdleGoesOn(max: nat, acts: seq<(Thread, Step)>, t: Thread, src: SourceId)
    returns (v: Thread, a: Step)
    requires Play(max, acts).Some? && Quiet(Play(max, acts).value) && Play(max, acts).value.At(t).Idle? && max > 0
    ensures var s := Play(max, acts).value; Can(s, max, v, a) && ((v == t && Gets(s, src, a)) || Brings(s, v, a))
    ensures var s := Play(max, acts).value;
            |Owners(s)| < max || (s.Waits(src) == 0 && exists p :: Listed(s, p) && !s.pipes[p].once.Done?) ==>
              v == t && Gets(s, src, a)
    ensures |Owners(Play(max, acts).value)| < max ==> a == Open(TrySlot(src))
  {
    var s := Play(max, acts).value;
    EveryRun(max, acts);
    if |Owners(s)| < max {
      v, a := t, Open(TrySlot(src));
    } else if s.Waits(src) > 0 {
      EveryWaitCounted(max, acts);
      var w :| CountedIn(s.At(w)) == Some(src);
      assert s.At(w).Idle? || s.At(w).Waiting?;
      v, a := WaiterBrings(max, acts, t, w);
    } else {
      var o := SomeOwner(s);
      v, a := OwnerGives(max, acts, t, src, o);
    }
  }

  /** An owner of a slot, a listed pipe if there is one. */
  lemma {:induction false} SomeOwner(s: State) returns (o: Owner)
    requires Owners(s) != {}
    ensures o in Owners(s)
    ensures (exists p :: Listed(s, p) && !s.pipes[p].once.Done?) ==> o.ByPipe? && Listed(s, o.pipe)
  {
    if p :| Listed(s, p) && !s.pipes[p].once.Done? {
      o := ByPipe(p);
      OwnersIff(s, o);
    } else {
      o :| o in Owners(s);
    }
  }
}
