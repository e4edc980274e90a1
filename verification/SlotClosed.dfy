/** Pipes that have left their Source's list (resolve/irrd/pipeline.go:146-159, 183-188, 258-336, resolve/irrd/irrd.go:
    915-960): none gains a call, one reclaimed never has any, and a closed Source lists none. */
module SlotClosed {
  import opened Prefixes
  import opened PipeSlots
  import opened SlotOwners

  // ---- a closed Source ----

  /** A pipe being opened is its opener's, and no closed Source lists a pipe. */
  ghost predicate Sealed(s: State) {
    (forall t :: OpenedOwn(s, t)) && forall p :: Listed(s, p) ==> s.pipes[p].owner !in s.closed
  }

  predicate OpenedOwn(s: State, t: Thread) {
    s.At(t).Opened? ==> s.At(t).pipe in s.pipes && s.pipes[s.At(t).pipe].owner == s.At(t).src
  }

  /** What a step of u does to a pipe's owner and to whether it is listed. */
  predicate ListMove(s: State, s': State, u: Thread, p: PipeId) {
    && (p in s.pipes ==> p in s'.pipes && s'.pipes[p].owner == s.pipes[p].owner)
    && (Listed(s', p) && !Listed(s, p) ==>
         s.At(u).Opened? && s.At(u).pipe == p && s.At(u).src !in s.closed && s'.closed == s.closed)
    && (Listed(s', p) && Listed(s, p) && s'.pipes[p].owner in s'.closed ==> s.pipes[p].owner in s.closed)
  }

  lemma {:induction false} StepLists(s: State, max: nat, u: Thread, a: Step, p: PipeId)
    requires Can(s, max, u, a)
    ensures ListMove(s, After(s, max, u, a), u, p)
  {
    match a
    case Open(o) => OpenLists(s, max, u, o, p);
    case Use(x) => UseLists(s, u, x, p);
    case Retire(r) => RetireLists(s, u, r, p);
    case Close(c) => CloseLists(s, u, c, p);
    case DoShut(k) => ShutLists(s, u, k, p);
  }

  lemma {:induction false} OpenLists(s: State, max: nat, u: Thread, o: OpenStep, p: PipeId)
    requires CanOpen(s, max, u, o)
    ensures ListMove(s, AfterOpen(s, max, u, o), u, p)
  {
  }

  lemma {:induction false} UseLists(s: State, u: Thread, x: UseStep, p: PipeId)
    requires CanUse(s, u, x)
    ensures ListMove(s, AfterUse(s, u, x), u, p)
  {
  }

  lemma {:induction false} RetireLists(s: State, u: Thread, r: RetireStep, p: PipeId)
    requires CanRetire(s, u, r)
    ensures ListMove(s, AfterRetire(s, u, r), u, p)
  {
  }

  lemma {:induction false} CloseLists(s: State, u: Thread, c: CloseStep, p: PipeId)
    requires CanClose(s, u, c)
    ensures ListMove(s, AfterClose(s, u, c), u, p)
  {
  }

  lemma {:induction false} ShutLists(s: State, u: Thread, k: ShutStep, p: PipeId)
    requires CanShut(s, u, k)
    ensures ListMove(s, AfterShut(s, u, k), u, p)
  {
  }

  /** A thread comes to open a pipe by dialing it, as its own. */
  lemma {:induction false} StepOpens(s: State, max: nat, u: Thread, a: Step)
    requires Own(s, u) && Can(s, max, u, a)
    ensures OpenedOwn(After(s, max, u, a), u)
  {
    match a
    case Open(o) => OpenOpens(s, max, u, o);
    case Retire(r) => RetireOpens(s, u, r);
    case DoShut(k) => ShutOpens(s, u, k);
    case _ =>
  }

  lemma {:induction false} OpenOpens(s: State, max: nat, u: Thread, o: OpenStep)
    requires CanOpen(s, max, u, o)
    ensures OpenedOwn(AfterOpen(s, max, u, o), u)
  {
  }

  lemma {:induction false} RetireOpens(s: State, u: Thread, r: RetireStep)
    requires CanRetire(s, u, r)
    ensures !AfterRetire(s, u, r).At(u).Opened?
  {
  }

  lemma {:induction false} ShutOpens(s: State, u: Thread, k: ShutStep)
    requires Own(s, u) && CanShut(s, u, k)
    ensures !AfterShut(s, u, k).At(u).Opened?
  {
  }

  lemma {:induction false} SealedKept(s: State, max: nat, u: Thread, a: Step)
    requires Inv(s) && Sealed(s) && Can(s, max, u, a)
    ensures Sealed(After(s, max, u, a))
  {
    var s' := After(s, max, u, a);
    StepGuarantee(s, max, u, a);
    forall t ensures OpenedOwn(s', t) {
      if t == u {
        assert Own(s, u);
        StepOpens(s, max, u, a);
      } else if s.At(t).Opened? {
        assert OpenedOwn(s, t);
        StepLists(s, max, u, a, s.At(t).pipe);
      }
    }
    forall p | Listed(s', p) ensures s'.pipes[p].owner !in s'.closed {
      StepLists(s, max, u, a, p);
      assert OpenedOwn(s, u);
    }
  }

  lemma {:induction false} EveryRunSealed(max: nat, acts: seq<(Thread, Step)>)
    requires Play(max, acts).Some?
    ensures Sealed(Play(max, acts).value)
    decreases |acts|
  {
    if acts != [] {
      var before, last := acts[..|acts| - 1], acts[|acts| - 1];
      EveryRunSealed(max, before);
      EveryRun(max, before);
      SealedKept(Play(max, before).value, max, last.0, last.1);
    }
  }

  /** After any run, once threads are at rest, every pipe of a closed Source is shut, or is retired with answers due. */
  lemma {:induction false} ClosedAtRest(max: nat, acts: seq<(Thread, Step)>, p: PipeId)
    requires Play(max, acts).Some?
    requires var s := Play(max, acts).value; Quiet(s) && p in s.pipes && s.pipes[p].owner in s.closed
    ensures var x := Play(max, acts).value.pipes[p]; x.once.Done? || (x.handoff.For? && x.load > 0)
  {
    EveryRun(max, acts);
    EveryRunSealed(max, acts);
    var s := Play(max, acts).value;
    QuietPipe(s, p);
    assert !Listed(s, p);
  }

  // ---- a pipe out of its Source's list ----

  /** p is not listed, and no thread is about to list it. */
  ghost predicate Off(s: State, p: PipeId) {
    p in s.pipes && !s.pipes[p].listed && forall t :: s.At(t).Opened? ==> s.At(t).pipe != p
  }

  lemma {:induction false} OffStays(s: State, max: nat, u: Thread, a: Step, p: PipeId)
    requires Inv(s) && Off(s, p) && Can(s, max, u, a)
    ensures var s' := After(s, max, u, a); Off(s', p) && s'.pipes[p].load <= s.pipes[p].load
  {
    var s' := After(s, max, u, a);
    StepGuarantee(s, max, u, a);
    StepLoads(s, max, u, a, p);
    forall t | s'.At(t).Opened? ensures s'.At(t).pipe != p {
      if t == u {
        assert Own(s, u);
        OffOpened(s, max, u, a, p);
      }
    }
  }

  lemma {:induction false} OffOpened(s: State, max: nat, u: Thread, a: Step, p: PipeId)
    requires Own(s, u) && p in s.pipes && !(s.At(u).Opened? && s.At(u).pipe == p) && Can(s, max, u, a)
    ensures After(s, max, u, a).At(u).Opened? ==> After(s, max, u, a).At(u).pipe != p
  {
    match a
    case Open(_) =>
    case Use(_) =>
    case Retire(r) => RetireOpens(s, u, r);
    case Close(_) =>
    case DoShut(k) => ShutOpens(s, u, k);
  }

  lemma {:induction false} StepLoads(s: State, max: nat, u: Thread, a: Step, p: PipeId)
    requires p in s.pipes && !s.pipes[p].listed && !(s.At(u).Opened? && s.At(u).pipe == p) && Can(s, max, u, a)
    ensures var s' := After(s, max, u, a); p in s'.pipes && !s'.pipes[p].listed && s'.pipes[p].load <= s.pipes[p].load
  {
    match a
    case Open(o) => OpenLoads(s, max, u, o, p);
    case Use(x) => UseLoads(s, u, x, p);
    case Retire(r) => RetireLoads(s, u, r, p);
    case Close(c) => CloseLoads(s, u, c, p);
    case DoShut(k) => ShutLoads(s, u, k, p);
  }

  lemma {:induction false} OpenLoads(s: State, max: nat, u: Thread, o: OpenStep, p: PipeId)
    requires p in s.pipes && !s.pipes[p].listed && !(s.At(u).Opened? && s.At(u).pipe == p) && CanOpen(s, max, u, o)
    ensures var s' := AfterOpen(s, max, u, o);
            p in s'.pipes && !s'.pipes[p].listed && s'.pipes[p].load <= s.pipes[p].load
  {
  }

  lemma {:induction false} UseLoads(s: State, u: Thread, x: UseStep, p: PipeId)
    requires p in s.pipes && !s.pipes[p].listed && CanUse(s, u, x)
    ensures var s' := AfterUse(s, u, x); p in s'.pipes && !s'.pipes[p].listed && s'.pipes[p].load <= s.pipes[p].load
  {
  }

  lemma {:induction false} RetireLoads(s: State, u: Thread, r: RetireStep, p: PipeId)
    requires p in s.pipes && !s.pipes[p].listed && CanRetire(s, u, r)
    ensures var s' := AfterRetire(s, u, r); p in s'.pipes && !s'.pipes[p].listed && s'.pipes[p].load <= s.pipes[p].load
  {
  }

  lemma {:induction false} CloseLoads(s: State, u: Thread, c: CloseStep, p: PipeId)
    requires p in s.pipes && !s.pipes[p].listed && CanClose(s, u, c)
    ensures var s' := AfterClose(s, u, c); p in s'.pipes && !s'.pipes[p].listed && s'.pipes[p].load <= s.pipes[p].load
  {
  }

  lemma {:induction false} ShutLoads(s: State, u: Thread, k: ShutStep, p: PipeId)
    requires p in s.pipes && !s.pipes[p].listed && CanShut(s, u, k)
    ensures var s' := AfterShut(s, u, k); p in s'.pipes && !s'.pipes[p].listed && s'.pipes[p].load <= s.pipes[p].load
  {
  }

  /** A pipe that has left its Source's list never gains a call, however the run goes on. */
  lemma {:induction false} NeverGains(max: nat, acts: seq<(Thread, Step)>, on: seq<(Thread, Step)>, p: PipeId)
    requires acts <= on && Play(max, acts).Some? && Play(max, on).Some? && Off(Play(max, acts).value, p)
    ensures Off(Play(max, on).value, p)
    ensures Play(max, on).value.pipes[p].load <= Play(max, acts).value.pipes[p].load
    decreases |on|
  {
    if on == acts { return; }
    var before, last := on[..|on| - 1], on[|on| - 1];
    NeverGains(max, acts, before, p);
    EveryRun(max, before);
    OffStays(Play(max, before).value, max, last.0, last.1, p);
  }

  /** A pipe that u takes off the list is off it. */
  lemma {:induction false} TakenOff(s: State, s': State, u: Thread, p: PipeId)
    requires Inv(s) && Guarantee(s, s', u) && Listed(s, p) && p in s'.pipes && !s'.pipes[p].listed && !s'.At(u).Opened?
    ensures Off(s', p)
  {
    forall t | s'.At(t).Opened? ensures s'.At(t).pipe != p { assert Own(s, t); }
  }

  /** No call is ever on a pipe that was reclaimed. */
  lemma {:induction false} ReclaimedHasNone(max: nat, acts: seq<(Thread, Step)>, t: Thread, p: PipeId,
                                            on: seq<(Thread, Step)>)
    requires Play(max, acts + [(t, Use(ReclaimIdle(p)))]).Some? && acts + [(t, Use(ReclaimIdle(p)))] <= on
    requires Play(max, on).Some?
    ensures p in Play(max, on).value.pipes && !Loaded(Play(max, on).value, p) && !Listed(Play(max, on).value, p)
  {
    var took := acts + [(t, Use(ReclaimIdle(p)))];
    assert took[..|took| - 1] == acts;
    EveryRun(max, acts);
    var s := Play(max, acts).value;
    StepGuarantee(s, max, t, Use(ReclaimIdle(p)));
    TakenOff(s, Play(max, took).value, t, p);
    NeverGains(max, took, on, p);
  }

  /** A pipe retired for another's slot never gains a call either. */
  lemma {:induction false} RetiredNeverGains(max: nat, acts: seq<(Thread, Step)>, t: Thread, src: SourceId, p: PipeId,
                                             on: seq<(Thread, Step)>)
    requires Play(max, acts + [(t, Retire(Take(src, p)))]).Some? && acts + [(t, Retire(Take(src, p)))] <= on
    requires Play(max, on).Some?
    ensures Play(max, acts).Some? && p in Play(max, acts).value.pipes && p in Play(max, on).value.pipes
    ensures !Listed(Play(max, on).value, p)
    ensures Play(max, on).value.pipes[p].load <= Play(max, acts).value.pipes[p].load
  {
    var took := acts + [(t, Retire(Take(src, p)))];
    assert took[..|took| - 1] == acts;
    EveryRun(max, acts);
    var s := Play(max, acts).value;
    StepGuarantee(s, max, t, Retire(Take(src, p)));
    TakenOff(s, Play(max, took).value, t, p);
    NeverGains(max, took, on, p);
  }
}
