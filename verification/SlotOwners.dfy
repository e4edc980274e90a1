/** Over every interleaving of PipeSlots' steps: slots are conserved, and no pipe is forgotten. */
module SlotOwners {
  import opened Prefixes
  import opened PipeSlots

  /** Who holds a slot: a call opening a pipe or one a completed hand-over went to, or a pipe. */
  datatype Owner = ByThread(thread: Thread) | ByPipe(pipe: PipeId)

  predicate Owns(s: State, o: Owner) {
    match o
    case ByThread(t) =>
      s.At(t).Opening? || s.At(t).Got? ||
      (WaitsOn(s.At(t)).Some? && WaitsOn(s.At(t)).value in s.hands && s.hands[WaitsOn(s.At(t)).value].given)
    case ByPipe(p) => p in s.pipes && !s.pipes[p].once.Done?
  }

  function Owners(s: State): set<Owner> {
    (set t | t in s.threads && Owns(s, ByThread(t)) :: ByThread(t)) +
      (set p | p in s.pipes && Owns(s, ByPipe(p)) :: ByPipe(p))
  }

  /** The slot a step takes from an owner, and the one it brings. */
  function Lost(s: State, u: Thread, a: Step): set<Owner> {
    match a
    case Open(DialFails) => {ByThread(u)}
    case Open(Dialed(_)) => {ByThread(u)}
    case DoShut(HandOver) =>
      var pc := s.At(u);
      if pc.Shut? && pc.at.Give? && pc.at.hand in s.hands && !s.hands[pc.at.hand].abandoned then {ByPipe(pc.pipe)}
      else {}
    case DoShut(Free) => if s.At(u).Shut? then {ByPipe(s.At(u).pipe)} else {}
    case _ => {}
  }

  function Gained(s: State, u: Thread, a: Step): set<Owner> {
    match a
    case Open(TrySlot(_)) => {ByThread(u)}
    case Open(Dialed(p)) => {ByPipe(p)}
    case DoShut(HandOver) =>
      var pc := s.At(u);
      if pc.Shut? && pc.at.Give? && pc.at.hand in s.hands &&
        !s.hands[pc.at.hand].abandoned then {ByThread(s.hands[pc.at.hand].waiter)} else {}
    case _ => {}
  }

  /** What a step does to one owner. */
  predicate OwnerMove(s: State, s': State, u: Thread, a: Step, o: Owner) {
    && (Owns(s', o) <==> (Owns(s, o) && o !in Lost(s, u, a)) || o in Gained(s, u, a))
    && (o in Lost(s, u, a) ==> Owns(s, o)) && (o in Gained(s, u, a) ==> !Owns(s, o))
  }

  predicate OwnerKnown(s: State, o: Owner) {
    match o
    case ByThread(t) => Own(s, t)
    case ByPipe(p) => p in s.pipes ==> PipeOk(s, p)
  }

  lemma OpenMoves(s: State, max: nat, u: Thread, o: OpenStep, x: Owner)
    requires Own(s, u) && CanOpen(s, max, u, o) && OwnerKnown(s, x)
    ensures OwnerMove(s, AfterOpen(s, max, u, o), u, Open(o), x)
  {
  }

  lemma UseMoves(s: State, u: Thread, a: UseStep, x: Owner)
    requires Own(s, u) && CanUse(s, u, a) && OwnerKnown(s, x)
    ensures OwnerMove(s, AfterUse(s, u, a), u, Use(a), x)
  {
  }

  lemma RetireMovesFirst(s: State, u: Thread, r: RetireStep, x: Owner)
    requires r.Take? || r.SetHandoff? || r.CheckLoad?
    requires Own(s, u) && CanRetire(s, u, r) && OwnerKnown(s, x)
    ensures OwnerMove(s, AfterRetire(s, u, r), u, Retire(r), x)
  {
  }

  lemma RetireMovesLast(s: State, u: Thread, r: RetireStep, x: Owner)
    requires r.Ready? || r.Cancel? || r.Uncount?
    requires Own(s, u) && CanRetire(s, u, r) && OwnerKnown(s, x)
    ensures OwnerMove(s, AfterRetire(s, u, r), u, Retire(r), x)
  {
  }

  lemma RetireMoves(s: State, u: Thread, r: RetireStep, x: Owner)
    requires Own(s, u) && CanRetire(s, u, r) && OwnerKnown(s, x)
    ensures OwnerMove(s, AfterRetire(s, u, r), u, Retire(r), x)
  {
    if r.Take? || r.SetHandoff? || r.CheckLoad? { RetireMovesFirst(s, u, r, x); } else { RetireMovesLast(s, u, r, x); }
  }

  lemma CloseMoves(s: State, u: Thread, c: CloseStep, x: Owner)
    requires Own(s, u) && CanClose(s, u, c) && OwnerKnown(s, x)
    ensures OwnerMove(s, AfterClose(s, u, c), u, Close(c), x)
  {
  }

  lemma ShutMovesIn(s: State, u: Thread, k: ShutStep, x: Owner)
    requires k.Enter? || k.Skip? || k.SwapOut?
    requires Own(s, u) && CanShut(s, u, k) && OwnerKnown(s, x)
    ensures OwnerMove(s, AfterShut(s, u, k), u, DoShut(k), x)
  {
  }

  lemma ShutMovesHandOver(s: State, u: Thread, x: Owner)
    requires Own(s, u) && CanShut(s, u, HandOver) && OwnerKnown(s, x) && HandOk(s, s.At(u).at.hand)
    ensures OwnerMove(s, AfterShut(s, u, HandOver), u, DoShut(HandOver), x)
  {
  }

  lemma ShutMovesFree(s: State, u: Thread, x: Owner)
    requires Own(s, u) && CanShut(s, u, Free) && OwnerKnown(s, x)
    ensures OwnerMove(s, AfterShut(s, u, Free), u, DoShut(Free), x)
  {
  }

  lemma ShutMoves(s: State, u: Thread, k: ShutStep, x: Owner)
    requires Own(s, u) && CanShut(s, u, k) && OwnerKnown(s, x)
    requires k.HandOver? && s.At(u).at.hand in s.hands ==> HandOk(s, s.At(u).at.hand)
    ensures OwnerMove(s, AfterShut(s, u, k), u, DoShut(k), x)
  {
    if k.HandOver? {
      ShutMovesHandOver(s, u, x);
    } else if k.Free? {
      ShutMovesFree(s, u, x);
    } else {
      ShutMovesIn(s, u, k, x);
    }
  }

  lemma StepMoves(s: State, max: nat, u: Thread, a: Step, x: Owner)
    requires Inv(s) && Can(s, max, u, a)
    ensures OwnerMove(s, After(s, max, u, a), u, a, x)
  {
    assert Own(s, u);
    assert OwnerKnown(s, x) by { if x.ByThread? { assert Own(s, x.thread); } }
    match a
    case Open(o) => OpenMoves(s, max, u, o, x);
    case Use(y) => UseMoves(s, u, y, x);
    case Retire(r) => RetireMoves(s, u, r, x);
    case Close(c) => CloseMoves(s, u, c, x);
    case DoShut(k) =>
      if k.HandOver? { assert HandOk(s, s.At(u).at.hand); }
      ShutMoves(s, u, k, x);
  }

  lemma OwnersIff(s: State, x: Owner)
    ensures x in Owners(s) <==> Owns(s, x)
  {
  }

  lemma Swapped<T>(a: set<T>, lost: set<T>, gained: set<T>)
    requires lost <= a && gained !! a
    ensures |(a - lost) + gained| == |a| - |lost| + |gained|
  {
    assert a == (a - lost) + lost;
    assert (a - lost) !! gained;
  }

  /** Slots are conserved: the semaphore counts exactly the owners, never more than max. */
  ghost predicate Conserved(s: State, max: nat) { s.used == |Owners(s)| <= max }

  lemma OwnersMove(s: State, max: nat, u: Thread, a: Step)
    requires Inv(s) && Can(s, max, u, a)
    ensures Owners(After(s, max, u, a)) == (Owners(s) - Lost(s, u, a)) + Gained(s, u, a)
    ensures Lost(s, u, a) <= Owners(s) && Gained(s, u, a) !! Owners(s)
  {
    var s' := After(s, max, u, a);
    forall x ensures x in Owners(s') <==> x in (Owners(s) - Lost(s, u, a)) + Gained(s, u, a) {
      StepMoves(s, max, u, a, x);
      OwnersIff(s, x);
      OwnersIff(s', x);
    }
    forall x | x in Lost(s, u, a) ensures x in Owners(s) { StepMoves(s, max, u, a, x); OwnersIff(s, x); }
    forall x | x in Gained(s, u, a) ensures x !in Owners(s) { StepMoves(s, max, u, a, x); OwnersIff(s, x); }
  }

  lemma UsedMovesOpening(s: State, max: nat, u: Thread, a: Step)
    requires a.Open?
    requires Can(s, max, u, a)
    ensures var s' := After(s, max, u, a);
            s'.used == s.used - |Lost(s, u, a)| + |Gained(s, u, a)| && (s'.used > s.used ==> s'.used <= max)
  {
  }

  lemma UsedMovesShutting(s: State, max: nat, u: Thread, a: Step)
    requires a.DoShut?
    requires Can(s, max, u, a)
    ensures var s' := After(s, max, u, a);
            s'.used == s.used - |Lost(s, u, a)| + |Gained(s, u, a)| && (s'.used > s.used ==> s'.used <= max)
  {
  }

  lemma UsedMovesOther(s: State, max: nat, u: Thread, a: Step)
    requires a.Use? || a.Retire? || a.Close?
    requires Can(s, max, u, a)
    ensures var s' := After(s, max, u, a);
            s'.used == s.used - |Lost(s, u, a)| + |Gained(s, u, a)| && (s'.used > s.used ==> s'.used <= max)
  {
  }

  lemma UsedMoves(s: State, max: nat, u: Thread, a: Step)
    requires Can(s, max, u, a)
    ensures var s' := After(s, max, u, a);
            s'.used == s.used - |Lost(s, u, a)| + |Gained(s, u, a)| && (s'.used > s.used ==> s'.used <= max)
  {
    if a.Open? {
      UsedMovesOpening(s, max, u, a);
    } else if a.DoShut? {
      UsedMovesShutting(s, max, u, a);
    } else {
      UsedMovesOther(s, max, u, a);
    }
  }

  lemma ConservedKept(s: State, max: nat, u: Thread, a: Step)
    requires Inv(s) && Conserved(s, max) && Can(s, max, u, a)
    ensures Conserved(After(s, max, u, a), max)
  {
    OwnersMove(s, max, u, a);
    UsedMoves(s, max, u, a);
    Swapped(Owners(s), Lost(s, u, a), Gained(s, u, a));
  }

  /** A pipe's slot leaves it once for all: given to the one call that waits for it, or released. */
  lemma SlotLeavesOnce(s: State, max: nat, u: Thread, a: Step, p: PipeId)
    requires Inv(s) && Can(s, max, u, a) && p in s.pipes
    ensures var s' := After(s, max, u, a);
            !Owns(s, ByPipe(p)) ==> !Owns(s', ByPipe(p))
    ensures var s' := After(s, max, u, a);
            Owns(s, ByPipe(p)) && !Owns(s', ByPipe(p)) ==>
              (s'.used == s.used - 1 && Owners(s') == Owners(s) - {ByPipe(p)}) ||
              (s'.used == s.used && exists w ::
                Owns(s', ByThread(w)) && Owners(s') == Owners(s) - {ByPipe(p)} + {ByThread(w)})
  {
    StepMoves(s, max, u, a, ByPipe(p));
    OwnersMove(s, max, u, a);
    UsedMoves(s, max, u, a);
    if ByPipe(p) in Lost(s, u, a) && Gained(s, u, a) != {} {
      var w := s.hands[s.At(u).at.hand].waiter;
      StepMoves(s, max, u, a, ByThread(w));
    }
  }

  // ---- no pipe is forgotten ----

  /** An open pipe that can gain no call and has none left to close it. */
  predicate NeedsMinder(s: State, p: PipeId) {
    p in s.pipes && s.pipes[p].once.Live? && !s.pipes[p].listed && !(s.pipes[p].handoff.For? && s.pipes[p].load > 0)
  }

  /** t will list p, retire it or shut it before it is done. */
  predicate Minds(s: State, t: Thread, p: PipeId) {
    match s.At(t)
    case Opened(_, q) => q == p
    case Unlisted(_, q) => q == p
    case Retired(_, q, _) => q == p
    case Checking(q) => q == p && p in s.pipes && s.pipes[p].handoff.For?
    case Shut(at, q, next) => (at.Before? && q == p) || (next.Closing? && p in next.pipes)
    case Closing(ps) => p in ps
    case _ => false
  }

  ghost predicate Minded(s: State) { forall p :: NeedsMinder(s, p) ==> exists t :: Minds(s, t, p) }

  /** After a step of u, a pipe that needs a minder has u or had another. */
  predicate MinderMove(s: State, s': State, u: Thread, p: PipeId) {
    NeedsMinder(s', p) ==> Minds(s', u, p) || (NeedsMinder(s, p) && !Minds(s, u, p))
  }

  lemma OpenMinds(s: State, max: nat, u: Thread, o: OpenStep, p: PipeId)
    requires Own(s, u) && CanOpen(s, max, u, o) && (p in s.pipes ==> PipeOk(s, p))
    ensures MinderMove(s, AfterOpen(s, max, u, o), u, p)
  {
  }

  lemma UseMinds(s: State, u: Thread, a: UseStep, p: PipeId)
    requires Own(s, u) && CanUse(s, u, a) && (p in s.pipes ==> PipeOk(s, p))
    ensures MinderMove(s, AfterUse(s, u, a), u, p)
  {
  }

  lemma RetireMinds(s: State, u: Thread, r: RetireStep, p: PipeId)
    requires Own(s, u) && CanRetire(s, u, r) && (p in s.pipes ==> PipeOk(s, p))
    ensures MinderMove(s, AfterRetire(s, u, r), u, p)
  {
  }

  lemma CloseMinds(s: State, u: Thread, c: CloseStep, p: PipeId)
    requires Own(s, u) && CanClose(s, u, c) && (p in s.pipes ==> PipeOk(s, p))
    ensures MinderMove(s, AfterClose(s, u, c), u, p)
  {
  }

  lemma ShutMinds(s: State, u: Thread, k: ShutStep, p: PipeId)
    requires Own(s, u) && CanShut(s, u, k) && (p in s.pipes ==> PipeOk(s, p))
    ensures MinderMove(s, AfterShut(s, u, k), u, p)
  {
  }

  lemma StepMinds(s: State, max: nat, u: Thread, a: Step, p: PipeId)
    requires Inv(s) && Can(s, max, u, a)
    ensures MinderMove(s, After(s, max, u, a), u, p)
  {
    assert Own(s, u);
    match a
    case Open(o) => OpenMinds(s, max, u, o, p);
    case Use(y) => UseMinds(s, u, y, p);
    case Retire(r) => RetireMinds(s, u, r, p);
    case Close(c) => CloseMinds(s, u, c, p);
    case DoShut(k) => ShutMinds(s, u, k, p);
  }

  lemma MindedKept(s: State, max: nat, u: Thread, a: Step)
    requires Inv(s) && Minded(s) && Can(s, max, u, a)
    ensures Minded(After(s, max, u, a))
  {
    var s' := After(s, max, u, a);
    StepGuarantee(s, max, u, a);
    forall p | NeedsMinder(s', p) ensures exists t :: Minds(s', t, p) {
      StepMinds(s, max, u, a, p);
      if !Minds(s', u, p) {
        var t :| Minds(s, t, p);
        assert s'.At(t) == s.At(t) && PipeMove(s, s', u, p);
        assert Minds(s', t, p);
      }
    }
  }

  // ---- runs ----

  /** The state after the given threads took the given steps in that order; None when one could not. */
  function Play(max: nat, acts: seq<(Thread, Step)>): Option<State> {
    if acts == [] then Some(Init())
    else
      var s, last := Play(max, acts[..|acts| - 1]), acts[|acts| - 1];
      if s.Some? && Can(s.value, max, last.0, last.1) then Some(After(s.value, max, last.0, last.1)) else None
  }

  /** Over every run: slots are conserved and every open pipe is minded. */
  lemma {:induction false} EveryRun(max: nat, acts: seq<(Thread, Step)>)
    requires Play(max, acts).Some?
    ensures var s := Play(max, acts).value; Inv(s) && Conserved(s, max) && Minded(s)
    decreases |acts|
  {
    if acts == [] {
      assert Owners(Init()) == {};
    } else {
      var before, last := acts[..|acts| - 1], acts[|acts| - 1];
      EveryRun(max, before);
      var s := Play(max, before).value;
      InvKept(s, max, last.0, last.1);
      ConservedKept(s, max, last.0, last.1);
      MindedKept(s, max, last.0, last.1);
    }
  }

  /** No thread is in the middle of a step of its own: each is idle or waits for a slot. */
  ghost predicate Quiet(s: State) { forall t :: s.At(t).Idle? || s.At(t).Waiting? }

  lemma QuietPipe(s: State, p: PipeId)
    requires Inv(s) && Minded(s) && Quiet(s) && p in s.pipes
    ensures s.pipes[p].once.Done? || s.pipes[p].listed || (s.pipes[p].handoff.For? && s.pipes[p].load > 0)
  {
    assert PipeOk(s, p);
    forall t ensures !Minds(s, t, p) { assert s.At(t).Idle? || s.At(t).Waiting?; }
    assert !NeedsMinder(s, p);
    assert forall t :: !s.At(t).Shut?;
  }

  /** A retired pipe whose load is zero is shut, unless a thread is on its way to shut it; so once
      threads come to rest it is shut, and a waiter has its slot or a pipe with answers due brings it. */
  lemma RetiredIsShut(max: nat, acts: seq<(Thread, Step)>, p: PipeId)
    requires Play(max, acts).Some? && p in Play(max, acts).value.pipes
    ensures var s := Play(max, acts).value;
            s.pipes[p].handoff.For? && s.pipes[p].load == 0 && s.pipes[p].once.Live? ==> exists t :: Minds(s, t, p)
    ensures var s := Play(max, acts).value;
            Quiet(s) ==> s.pipes[p].once.Done? || s.pipes[p].listed || (s.pipes[p].handoff.For? && s.pipes[p].load > 0)
  {
    EveryRun(max, acts);
    var s := Play(max, acts).value;
    assert PipeOk(s, p);
    assert s.pipes[p].handoff.For? && s.pipes[p].load == 0 && s.pipes[p].once.Live? ==> NeedsMinder(s, p);
    if Quiet(s) { QuietPipe(s, p); }
  }

  lemma WaiterIsServed(max: nat, acts: seq<(Thread, Step)>, t: Thread)
    requires Play(max, acts).Some? && Quiet(Play(max, acts).value) && Play(max, acts).value.At(t).Waiting?
    ensures var s, h := Play(max, acts).value, Play(max, acts).value.At(t).h;
            h in s.hands && (s.hands[h].given ||
              (s.hands[h].pipe in s.pipes && s.pipes[s.hands[h].pipe].handoff == For(h) &&
                                                  s.pipes[s.hands[h].pipe].load > 0))
  {
    EveryRun(max, acts);
    var s := Play(max, acts).value;
    assert Own(s, t) && HandOk(s, s.At(t).h);
    var p := s.hands[s.At(t).h].pipe;
    if !s.hands[s.At(t).h].given {
      RetiredIsShut(max, acts, p);
      assert PipeOk(s, p);
    }
  }
}
