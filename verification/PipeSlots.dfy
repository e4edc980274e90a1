/** The connection slots of pipelined queries (resolve/irrd/pipeline.go:77-387, resolve/irrd/irrd.go:
    915-960) as atomic steps: what a lock or an atomic makes indivisible is one step, and threads
    interleave in any order. */
module PipeSlots {
  import opened Prefixes

  type Thread = nat
  type PipeId = nat
  type HandId = nat
  type SourceId = nat

  /** A pipe's breakOnce: not run, running in a thread, done. The pipe is broken once it runs. */
  datatype Once = Live | Running(thread: Thread) | Done

  /** A pipe's handoff pointer. */
  datatype Hand = NoHand | For(hand: HandId) | ShutMarker

  datatype Pipe = Pipe(owner: SourceId, listed: bool, load: nat, once: Once, handoff: Hand)

  /** slotHandoff, with the pipe it was made for and the thread that waits on it. */
  datatype Handoff = Handoff(given: bool, abandoned: bool, pipe: PipeId, waiter: Thread)

  /** Where in p.shut a thread is. */
  datatype Stage = Before | Swap | Give(hand: HandId) | Release

  /** What a thread is in the middle of. */
  datatype Pc =
    | Idle
    | Opening(src: SourceId)                          // openPipe, dialing on a slot it holds
    | Opened(src: SourceId, pipe: PipeId)             // openPipe, the pipe not yet listed
    | Unlisted(src: SourceId, pipe: PipeId)           // retirePipe, the victim out of its owner's pipes
    | Retired(src: SourceId, pipe: PipeId, h: HandId) // retirePipe, the victim's handoff set
    | Waiting(src: SourceId, h: HandId)               // slotHandoff.wait
    | Got(src: SourceId) | GaveUp(src: SourceId)      // awaitSlot, before waiting is uncounted
    | Checking(pipe: PipeId)                          // finished, the load just became zero
    | Shut(at: Stage, pipe: PipeId, next: Pc)         // shut, then next
    | Closing(pipes: set<PipeId>)                     // Close, pipes still to shut

  /** used counts the semaphore; reclaim is the holder of the root's reclaimMu. */
  datatype State = State(used: nat, pipes: map<PipeId, Pipe>, hands: map<HandId, Handoff>, threads: map<Thread, Pc>,
                         closed: set<SourceId>, waiting: map<SourceId, nat>, reclaim: Option<Thread>)
  {
    function At(t: Thread): Pc { if t in threads then threads[t] else Idle }

    function Waits(src: SourceId): nat { if src in waiting then waiting[src] else 0 }

    function Goto(t: Thread, pc: Pc): State { this.(threads := threads[t := pc]) }

    function SetPipe(p: PipeId, x: Pipe): State { this.(pipes := pipes[p := x]) }

    function SetWaits(src: SourceId, n: nat): State { this.(waiting := waiting[src := n]) }

    /** Go on after shut; retirePipe's lock is released as it returns. */
    function Resume(t: Thread, pc: Pc): State {
      if pc.Waiting? then Goto(t, pc).(reclaim := None) else Goto(t, pc)
    }
  }

  datatype OpenStep = TrySlot(src: SourceId) | DialFails | Dialed(p: PipeId) | List

  datatype UseStep =
    | Join(p: PipeId) | Prune(p: PipeId) | Finished(p: PipeId) | CheckHandoff | ReadFails(p: PipeId)
    | FailQueued(p: PipeId) | ReclaimIdle(p: PipeId) | Break(p: PipeId)

  datatype RetireStep = Take(src: SourceId, p: PipeId) | SetHandoff(h: HandId) | CheckLoad | Ready | Cancel | Uncount

  datatype CloseStep = StartClose(src: SourceId) | NextPipe(p: PipeId) | EndClose

  datatype ShutStep = Enter | Skip | SwapOut | HandOver | Free

  datatype Step =
    | Open(o: OpenStep) | Use(use: UseStep) | Retire(r: RetireStep) | Close(c: CloseStep) | DoShut(k: ShutStep)

  predicate Listed(s: State, p: PipeId) { p in s.pipes && s.pipes[p].listed }

  predicate Loaded(s: State, p: PipeId) { p in s.pipes && s.pipes[p].load > 0 }

  // ---- pipeFor and openPipe: taking a slot and opening a pipe on it ----

  predicate CanOpen(s: State, max: nat, t: Thread, o: OpenStep) {
    match o
    case TrySlot(_) => s.At(t).Idle? && s.used < max
    case DialFails => s.At(t).Opening? && s.used > 0
    case Dialed(p) => s.At(t).Opening? && p !in s.pipes
    case List => s.At(t).Opened? && s.At(t).pipe in s.pipes
  }

  function AfterOpen(s: State, max: nat, t: Thread, o: OpenStep): State
    requires CanOpen(s, max, t, o)
  {
    match o
    case TrySlot(src) => s.Goto(t, Opening(src)).(used := s.used + 1)
    case DialFails => s.Goto(t, Idle).(used := s.used - 1)
    case Dialed(p) => s.Goto(t, Opened(s.At(t).src, p)).SetPipe(p, Pipe(s.At(t).src, false, 0, Live, NoHand))
    case List =>
      var p, x := s.At(t).pipe, s.pipes[s.At(t).pipe];
      if s.At(t).src in s.closed then s.Goto(t, Shut(Before, p, Idle))
      else s.Goto(t, Idle).SetPipe(p, x.(load := x.load + 1, listed := true))
  }

  // ---- joining, leaving and breaking a pipe ----

  predicate CanUse(s: State, t: Thread, a: UseStep) {
    match a
    case Join(p) => s.At(t).Idle? && Listed(s, p)
    case Prune(p) => s.At(t).Idle? && Listed(s, p) && !s.pipes[p].once.Live?
    case Finished(p) => s.At(t).Idle? && Loaded(s, p)
    case CheckHandoff => s.At(t).Checking? && s.At(t).pipe in s.pipes
    case ReadFails(p) => s.At(t).Idle? && Loaded(s, p)
    case FailQueued(p) => s.At(t).Idle? && Loaded(s, p) && !s.pipes[p].once.Live?
    case ReclaimIdle(p) => s.At(t).Idle? && Listed(s, p) && !Loaded(s, p)
    case Break(p) => s.At(t).Idle? && p in s.pipes
  }

  function AfterUse(s: State, t: Thread, a: UseStep): State
    requires CanUse(s, t, a)
  {
    match a
    case Join(p) => s.SetPipe(p, s.pipes[p].(load := s.pipes[p].load + 1))
    case Prune(p) => s.SetPipe(p, s.pipes[p].(listed := false))
    case Finished(p) =>
      var x := s.pipes[p].(load := s.pipes[p].load - 1);
      s.Goto(t, if x.load == 0 then Checking(p) else Idle).SetPipe(p, x)
    case CheckHandoff =>
      var p := s.At(t).pipe;
      s.Goto(t, if s.pipes[p].handoff.NoHand? then Idle else Shut(Before, p, Idle))
    case ReadFails(p) => s.Goto(t, Shut(Before, p, Idle)).SetPipe(p, s.pipes[p].(load := s.pipes[p].load - 1))
    case FailQueued(p) => s.SetPipe(p, s.pipes[p].(load := s.pipes[p].load - 1))
    case ReclaimIdle(p) => s.Goto(t, Shut(Before, p, Idle)).SetPipe(p, s.pipes[p].(listed := false))
    case Break(p) => s.Goto(t, Shut(Before, p, Idle))
  }

  // ---- retirePipe and awaitSlot ----

  predicate CanRetire(s: State, t: Thread, r: RetireStep) {
    match r
    case Take(src, p) => s.At(t).Idle? && s.reclaim.None? && s.Waits(src) == 0 && Listed(s, p) &&
      s.pipes[p].owner != src
    case SetHandoff(h) => s.At(t).Unlisted? && s.At(t).pipe in s.pipes && h !in s.hands
    case CheckLoad => s.At(t).Retired? && s.At(t).pipe in s.pipes
    case Ready => s.At(t).Waiting? && s.At(t).h in s.hands && s.hands[s.At(t).h].given
    case Cancel => s.At(t).Waiting? && s.At(t).h in s.hands
    case Uncount => (s.At(t).Got? || s.At(t).GaveUp?) && s.reclaim.None? && s.Waits(s.At(t).src) > 0
  }

  function AfterRetire(s: State, t: Thread, r: RetireStep): State
    requires CanRetire(s, t, r)
  {
    match r
    case Take(src, p) => s.Goto(t, Unlisted(src, p)).SetPipe(p, s.pipes[p].(listed := false)).(reclaim := Some(t))
    case SetHandoff(h) =>
      var src, p := s.At(t).src, s.At(t).pipe;
      if !s.pipes[p].handoff.NoHand? then s.Goto(t, Idle).(reclaim := None)
      else s.Goto(t, Retired(src, p, h)).SetPipe(p, s.pipes[p].(handoff := For(h))).SetWaits(src, s.Waits(src) + 1)
            .(hands := s.hands[h := Handoff(false, false, p, t)])
    case CheckLoad =>
      var src, p, h := s.At(t).src, s.At(t).pipe, s.At(t).h;
      if s.pipes[p].load == 0 then s.Goto(t, Shut(Before, p, Waiting(src, h))) else s.Resume(t, Waiting(src, h))
    case Ready => s.Goto(t, Got(s.At(t).src))
    case Cancel =>
      var src, h := s.At(t).src, s.At(t).h;
      if s.hands[h].given then s.Goto(t, Got(src))
      else s.Goto(t, GaveUp(src)).(hands := s.hands[h := s.hands[h].(abandoned := true)])
    case Uncount =>
      var src := s.At(t).src;
      s.Goto(t, if s.At(t).Got? then Opening(src) else Idle).SetWaits(src, s.Waits(src) - 1)
  }

  // ---- Close ----

  predicate CanClose(s: State, t: Thread, c: CloseStep) {
    match c
    case StartClose(_) => s.At(t).Idle?
    case NextPipe(p) => s.At(t).Closing? && p in s.At(t).pipes
    case EndClose => s.At(t).Closing? && s.At(t).pipes == {}
  }

  function ListedBy(s: State, src: SourceId): set<PipeId> {
    set p | p in s.pipes && s.pipes[p].listed && s.pipes[p].owner == src
  }

  function AfterClose(s: State, t: Thread, c: CloseStep): State
    requires CanClose(s, t, c)
  {
    match c
    case StartClose(src) =>
      var ps := ListedBy(s, src);
      s.Goto(t, Closing(ps)).(closed := s.closed + {src},
                              pipes := map p | p in s.pipes ::
                                if p in ps then s.pipes[p].(listed := false) else s.pipes[p])
    case NextPipe(p) => s.Goto(t, Shut(Before, p, Closing(s.At(t).pipes - {p})))
    case EndClose => s.Goto(t, Idle)
  }

  // ---- shut ----

  predicate ShutAt(s: State, t: Thread, at: Stage) { s.At(t).Shut? && s.At(t).at == at && s.At(t).pipe in s.pipes }

  predicate CanShut(s: State, t: Thread, k: ShutStep) {
    match k
    case Enter => ShutAt(s, t, Before) && s.pipes[s.At(t).pipe].once.Live?
    case Skip => ShutAt(s, t, Before) && s.pipes[s.At(t).pipe].once.Done?
    case SwapOut => ShutAt(s, t, Swap)
    case HandOver => s.At(t).Shut? && s.At(t).at.Give? && s.At(t).pipe in s.pipes && s.At(t).at.hand in s.hands
    case Free => ShutAt(s, t, Release) && s.used > 0
  }

  function AfterShut(s: State, t: Thread, k: ShutStep): State
    requires CanShut(s, t, k)
  {
    var pc, p := s.At(t), s.At(t).pipe;
    match k
    case Enter => s.Goto(t, pc.(at := Swap)).SetPipe(p, s.pipes[p].(once := Running(t)))
    case Skip => s.Resume(t, pc.next)
    case SwapOut =>
      s.Goto(t, pc.(at := if s.pipes[p].handoff.For? then Give(s.pipes[p].handoff.hand) else Release))
       .SetPipe(p, s.pipes[p].(handoff := ShutMarker))
    case HandOver =>
      var h := pc.at.hand;
      if s.hands[h].abandoned then s.Goto(t, pc.(at := Release))
      else
        s.Resume(t, pc.next).SetPipe(p, s.pipes[p].(once := Done))
         .(hands := s.hands[h := s.hands[h].(given := true)])
    case Free => s.Resume(t, pc.next).SetPipe(p, s.pipes[p].(once := Done)).(used := s.used - 1)
  }

  // ---- runs ----

  /** When thread t can take a step, there being max slots in all. A receive from the semaphore waits
      for one to be in it. */
  predicate Can(s: State, max: nat, t: Thread, a: Step) {
    match a
    case Open(o) => CanOpen(s, max, t, o)
    case Use(u) => CanUse(s, t, u)
    case Retire(r) => CanRetire(s, t, r)
    case Close(c) => CanClose(s, t, c)
    case DoShut(k) => CanShut(s, t, k)
  }

  function After(s: State, max: nat, t: Thread, a: Step): State
    requires Can(s, max, t, a)
  {
    match a
    case Open(o) => AfterOpen(s, max, t, o)
    case Use(u) => AfterUse(s, t, u)
    case Retire(r) => AfterRetire(s, t, r)
    case Close(c) => AfterClose(s, t, c)
    case DoShut(k) => AfterShut(s, t, k)
  }

  function Init(): State { State(0, map[], map[], map[], {}, map[], None) }

  // ---- the invariant ----

  /** The hand-over a thread is waiting for, in wait or on its way there. */
  function WaitsOn(pc: Pc): Option<HandId> {
    match pc
    case Retired(_, _, h) => Some(h)
    case Waiting(_, h) => Some(h)
    case Shut(_, _, Waiting(_, h)) => Some(h)
    case _ => None
  }

  /** The Source a thread is counted in the waiting of. */
  function CountedIn(pc: Pc): Option<SourceId> {
    match pc
    case Retired(src, _, _) => Some(src)
    case Waiting(src, _) => Some(src)
    case Shut(_, _, Waiting(src, _)) => Some(src)
    case Got(src) => Some(src)
    case GaveUp(src) => Some(src)
    case _ => None
  }

  predicate Locks(pc: Pc) { pc.Unlisted? || pc.Retired? || (pc.Shut? && pc.next.Waiting?) }

  /** What holds of a thread by where it is. */
  predicate PcOk(s: State, t: Thread, pc: Pc) {
    match pc
    case Opened(_, p) => p in s.pipes && !s.pipes[p].listed && !s.pipes[p].handoff.For?
    case Unlisted(src, p) => p in s.pipes && !s.pipes[p].listed && !s.pipes[p].handoff.For? && s.Waits(src) == 0
    case Retired(_, p, h) => p in s.pipes && !s.pipes[p].listed &&
      (s.pipes[p].once.Live? ==> s.pipes[p].handoff == For(h))
    case Checking(p) => p in s.pipes
    case Shut(at, p, next) =>
      && p in s.pipes
      && (next.Idle? || next.Waiting? || (next.Closing? && next.pipes <= s.pipes.Keys))
      && (!at.Before? ==> s.pipes[p].once == Running(t))
      && (at.Swap? ==> !s.pipes[p].handoff.ShutMarker?)
      && (at.Give? ==> at.hand in s.hands && !s.hands[at.hand].given && s.hands[at.hand].pipe == p)
      && (at.Give? || at.Release? ==> s.pipes[p].handoff.ShutMarker?)
    case Closing(ps) => ps <= s.pipes.Keys
    case _ => true
  }

  /** The pipe only this thread opens or retires. */
  function GraspOf(pc: Pc): Option<PipeId> { if pc.Opened? || pc.Unlisted? || pc.Retired? then Some(pc.pipe) else None }

  predicate PipeOk(s: State, p: PipeId)
    requires p in s.pipes
  {
    var x := s.pipes[p];
    && (x.listed ==> !x.handoff.For?)
    && (x.once.Live? ==> !x.handoff.ShutMarker?) && (x.once.Done? ==> x.handoff.ShutMarker?)
    && (x.handoff.For? ==>
      x.handoff.hand in s.hands && !s.hands[x.handoff.hand].given && s.hands[x.handoff.hand].pipe == p && !x.once.Done?)
    && (x.once.Running? ==>
      s.At(x.once.thread).Shut? && s.At(x.once.thread).pipe == p && !s.At(x.once.thread).at.Before?)
  }

  /** h is on its way: its pipe still carries it, or the thread shutting the pipe does. */
  predicate Carried(s: State, h: HandId) {
    h in s.hands &&
    var p := s.hands[h].pipe;
    p in s.pipes &&
    (s.pipes[p].handoff == For(h) ||
      (s.pipes[p].once.Running? && s.At(s.pipes[p].once.thread).Shut? && s.At(s.pipes[p].once.thread).at == Give(h)))
  }

  /** Every hand-over has one waiter until it is given or abandoned, and is on its way until given. */
  predicate WaiterOk(s: State, t: Thread) {
    WaitsOn(s.At(t)).Some? ==>
      var h := WaitsOn(s.At(t)).value;
      h in s.hands && s.hands[h].waiter == t && !s.hands[h].abandoned
  }

  predicate HandOk(s: State, h: HandId) {
    h in s.hands && !s.hands[h].given && !s.hands[h].abandoned ==>
      WaitsOn(s.At(s.hands[h].waiter)) == Some(h) && Carried(s, h)
  }

  /** What holds of one thread. reclaimMu is held from taking the victim out to waiting. */
  predicate Own(s: State, t: Thread) {
    && PcOk(s, t, s.At(t))
    && WaiterOk(s, t)
    && (Locks(s.At(t)) <==> s.reclaim == Some(t))
    && (CountedIn(s.At(t)).Some? ==> s.Waits(CountedIn(s.At(t)).value) == 1)
  }

  /** No two threads wait for the same Source or have the same pipe in hand. */
  predicate Apart(s: State, t: Thread, u: Thread) {
    && (CountedIn(s.At(t)).Some? && CountedIn(s.At(t)) == CountedIn(s.At(u)) ==> t == u)
    && (GraspOf(s.At(t)).Some? && GraspOf(s.At(t)) == GraspOf(s.At(u)) ==> t == u)
  }

  ghost predicate Inv(s: State) {
    && (forall t :: Own(s, t)) && (forall t, u :: Apart(s, t, u))
    && (forall p :: p in s.pipes ==> PipeOk(s, p)) && (forall h :: HandOk(s, h))
  }

  // ---- what a thread's step may do to the others ----

  predicate PipeMove(s: State, s': State, u: Thread, p: PipeId) {
    p in s.pipes ==>
      && p in s'.pipes
      && var x, x' := s.pipes[p], s'.pipes[p];
         var mine := GraspOf(s.At(u)) == Some(p);
      && (x'.listed ==> x.listed || mine)
      && (x'.handoff != x.handoff ==>
        (mine && x.handoff.NoHand? && x'.handoff.For?) || (x.once == Running(u) && x'.handoff.ShutMarker?))
      && (x'.once != x.once ==> (x.once.Live? && x'.once == Running(u)) || (x.once == Running(u) && x'.once.Done?))
  }

  predicate HandMove(s: State, s': State, u: Thread, h: HandId) {
    h in s.hands ==>
      && h in s'.hands
      && var x, x' := s.hands[h], s'.hands[h];
      && x'.pipe == x.pipe && x'.waiter == x.waiter
      && (x'.given != x.given ==> x.pipe in s.pipes && s.pipes[x.pipe].once == Running(u))
      && (x'.abandoned != x.abandoned ==> WaitsOn(s.At(u)) == Some(h))
  }

  predicate WaitMove(s: State, s': State, u: Thread, src: SourceId) {
    s'.Waits(src) == s.Waits(src) || (s.Waits(src) == 0 && s.reclaim == Some(u)) || CountedIn(s.At(u)) == Some(src)
  }

  predicate LockMove(s: State, s': State, u: Thread) {
    s'.reclaim == s.reclaim || (s.reclaim.None? && s'.reclaim == Some(u)) || (s.reclaim == Some(u) && s'.reclaim.None?)
  }

  /** A step of u leaves the other threads where they are, and touches what they rely on only so far. */
  ghost predicate Guarantee(s: State, s': State, u: Thread) {
    && (forall t :: t != u ==> s'.At(t) == s.At(t))
    && (forall p :: PipeMove(s, s', u, p)) && (forall h :: HandMove(s, s', u, h))
    && (forall src :: WaitMove(s, s', u, src)) && LockMove(s, s', u)
  }

  lemma OthersKept(s: State, s': State, u: Thread, t: Thread)
    requires Inv(s) && Guarantee(s, s', u) && t != u
    ensures Own(s', t)
  {
    assert Own(s, t) && Own(s, u) && Apart(s, t, u);
    forall p | p in s.pipes ensures p in s'.pipes { assert PipeMove(s, s', u, p); }
    if WaitsOn(s.At(t)).Some? { assert HandMove(s, s', u, WaitsOn(s.At(t)).value); }
    if CountedIn(s.At(t)).Some? { assert WaitMove(s, s', u, CountedIn(s.At(t)).value); }
    match s.At(t)
    case Opened(_, p) => assert PipeMove(s, s', u, p);
    case Unlisted(src, p) => assert PipeMove(s, s', u, p) && WaitMove(s, s', u, src);
    case Retired(_, p, _) => assert PipeMove(s, s', u, p);
    case Shut(at, p, _) =>
      assert PipeMove(s, s', u, p);
      if at.Give? { assert HandMove(s, s', u, at.hand); }
    case _ =>
  }

  /** What a step of u must leave true beyond its guarantee. */
  predicate StepOk(s: State, s': State, u: Thread) {
    && Own(s', u)
    && (CountedIn(s'.At(u)).Some? ==>
      CountedIn(s'.At(u)) == CountedIn(s.At(u)) || s.Waits(CountedIn(s'.At(u)).value) == 0)
    && (GraspOf(s'.At(u)).Some? ==>
          var p := GraspOf(s'.At(u)).value; GraspOf(s.At(u)) == Some(p) || p !in s.pipes || s.pipes[p].listed)
  }

  lemma OpenGuarantee(s: State, max: nat, u: Thread, o: OpenStep)
    requires Own(s, u) && CanOpen(s, max, u, o)
    ensures Guarantee(s, AfterOpen(s, max, u, o), u)
  {
  }

  lemma OpenOk(s: State, max: nat, u: Thread, o: OpenStep)
    requires Own(s, u) && CanOpen(s, max, u, o)
    ensures StepOk(s, AfterOpen(s, max, u, o), u)
  {
  }

  lemma UseGuarantee(s: State, u: Thread, a: UseStep)
    requires Own(s, u) && CanUse(s, u, a)
    ensures Guarantee(s, AfterUse(s, u, a), u)
  {
  }

  lemma UseOk(s: State, u: Thread, a: UseStep)
    requires Own(s, u) && CanUse(s, u, a)
    ensures StepOk(s, AfterUse(s, u, a), u)
  {
  }

  lemma RetireGuarantee(s: State, u: Thread, r: RetireStep)
    requires Own(s, u) && CanRetire(s, u, r)
    ensures Guarantee(s, AfterRetire(s, u, r), u)
  {
  }

  lemma RetireOkFirst(s: State, u: Thread, r: RetireStep)
    requires r.Take? || r.SetHandoff? || r.CheckLoad?
    requires Own(s, u) && CanRetire(s, u, r) && (r.Take? ==> PipeOk(s, r.p))
    ensures StepOk(s, AfterRetire(s, u, r), u)
  {
  }

  lemma RetireOkLast(s: State, u: Thread, r: RetireStep)
    requires r.Ready? || r.Cancel? || r.Uncount?
    requires Own(s, u) && CanRetire(s, u, r)
    ensures StepOk(s, AfterRetire(s, u, r), u)
  {
  }

  lemma RetireOk(s: State, u: Thread, r: RetireStep)
    requires Own(s, u) && CanRetire(s, u, r) && (r.Take? ==> PipeOk(s, r.p))
    ensures StepOk(s, AfterRetire(s, u, r), u)
  {
    if r.Take? || r.SetHandoff? || r.CheckLoad? { RetireOkFirst(s, u, r); } else { RetireOkLast(s, u, r); }
  }

  lemma CloseGuarantee(s: State, u: Thread, c: CloseStep)
    requires Own(s, u) && CanClose(s, u, c)
    ensures Guarantee(s, AfterClose(s, u, c), u)
  {
  }

  lemma CloseOk(s: State, u: Thread, c: CloseStep)
    requires Own(s, u) && CanClose(s, u, c)
    ensures StepOk(s, AfterClose(s, u, c), u)
  {
  }

  lemma ShutGuarantee(s: State, u: Thread, k: ShutStep)
    requires Own(s, u) && CanShut(s, u, k)
    ensures Guarantee(s, AfterShut(s, u, k), u)
  {
  }

  lemma ShutOkIn(s: State, u: Thread, k: ShutStep)
    requires k.Enter? || k.Skip? || k.SwapOut?
    requires Own(s, u) && CanShut(s, u, k) && PipeOk(s, s.At(u).pipe)
    ensures StepOk(s, AfterShut(s, u, k), u)
  {
  }

  lemma ShutOkOut(s: State, u: Thread, k: ShutStep)
    requires k.HandOver? || k.Free?
    requires Own(s, u) && CanShut(s, u, k) && PipeOk(s, s.At(u).pipe)
    ensures StepOk(s, AfterShut(s, u, k), u)
  {
  }

  lemma ShutOk(s: State, u: Thread, k: ShutStep)
    requires Own(s, u) && CanShut(s, u, k) && PipeOk(s, s.At(u).pipe)
    ensures StepOk(s, AfterShut(s, u, k), u)
  {
    if k.Enter? || k.Skip? || k.SwapOut? { ShutOkIn(s, u, k); } else { ShutOkOut(s, u, k); }
  }

  lemma OpenPipe(s: State, max: nat, u: Thread, o: OpenStep, p: PipeId)
    requires Own(s, u) && CanOpen(s, max, u, o) && p in AfterOpen(s, max, u, o).pipes && (p in s.pipes ==> PipeOk(s, p))
    ensures PipeOk(AfterOpen(s, max, u, o), p)
  {
  }

  lemma OpenHand(s: State, max: nat, u: Thread, o: OpenStep, h: HandId)
    requires Own(s, u) && CanOpen(s, max, u, o) && HandOk(s, h)
    requires h in s.hands && s.hands[h].pipe in s.pipes ==> PipeOk(s, s.hands[h].pipe)
    ensures HandOk(AfterOpen(s, max, u, o), h)
  {
  }

  lemma UsePipe(s: State, u: Thread, a: UseStep, p: PipeId)
    requires Own(s, u) && CanUse(s, u, a) && p in AfterUse(s, u, a).pipes && (p in s.pipes ==> PipeOk(s, p))
    ensures PipeOk(AfterUse(s, u, a), p)
  {
  }

  lemma UseHand(s: State, u: Thread, a: UseStep, h: HandId)
    requires Own(s, u) && CanUse(s, u, a) && HandOk(s, h)
    requires h in s.hands && s.hands[h].pipe in s.pipes ==> PipeOk(s, s.hands[h].pipe)
    ensures HandOk(AfterUse(s, u, a), h)
  {
  }

  lemma RetirePipe(s: State, u: Thread, r: RetireStep, p: PipeId)
    requires Own(s, u) && CanRetire(s, u, r) && p in AfterRetire(s, u, r).pipes && (p in s.pipes ==> PipeOk(s, p))
    ensures PipeOk(AfterRetire(s, u, r), p)
  {
  }

  lemma RetireHandFirst(s: State, u: Thread, r: RetireStep, h: HandId)
    requires r.Take? || r.SetHandoff? || r.CheckLoad?
    requires Own(s, u) && CanRetire(s, u, r) && HandOk(s, h)
    requires h in s.hands && s.hands[h].pipe in s.pipes ==> PipeOk(s, s.hands[h].pipe)
    ensures HandOk(AfterRetire(s, u, r), h)
  {
  }

  lemma RetireHandLast(s: State, u: Thread, r: RetireStep, h: HandId)
    requires r.Ready? || r.Cancel? || r.Uncount?
    requires Own(s, u) && CanRetire(s, u, r) && HandOk(s, h)
    requires h in s.hands && s.hands[h].pipe in s.pipes ==> PipeOk(s, s.hands[h].pipe)
    ensures HandOk(AfterRetire(s, u, r), h)
  {
  }

  lemma RetireHand(s: State, u: Thread, r: RetireStep, h: HandId)
    requires Own(s, u) && CanRetire(s, u, r) && HandOk(s, h)
    requires h in s.hands && s.hands[h].pipe in s.pipes ==> PipeOk(s, s.hands[h].pipe)
    ensures HandOk(AfterRetire(s, u, r), h)
  {
    if r.Take? || r.SetHandoff? || r.CheckLoad? { RetireHandFirst(s, u, r, h); } else { RetireHandLast(s, u, r, h); }
  }

  lemma ClosePipe(s: State, u: Thread, c: CloseStep, p: PipeId)
    requires Own(s, u) && CanClose(s, u, c) && p in AfterClose(s, u, c).pipes && (p in s.pipes ==> PipeOk(s, p))
    ensures PipeOk(AfterClose(s, u, c), p)
  {
  }

  lemma CloseHand(s: State, u: Thread, c: CloseStep, h: HandId)
    requires Own(s, u) && CanClose(s, u, c) && HandOk(s, h)
    requires h in s.hands && s.hands[h].pipe in s.pipes ==> PipeOk(s, s.hands[h].pipe)
    ensures HandOk(AfterClose(s, u, c), h)
  {
  }

  lemma ShutPipeIn(s: State, u: Thread, k: ShutStep, p: PipeId)
    requires k.Enter? || k.Skip? || k.SwapOut?
    requires Own(s, u) && CanShut(s, u, k) && p in AfterShut(s, u, k).pipes && (p in s.pipes ==> PipeOk(s, p))
    ensures PipeOk(AfterShut(s, u, k), p)
  {
  }

  lemma ShutPipeHandOver(s: State, u: Thread, k: ShutStep, p: PipeId)
    requires k.HandOver?
    requires Own(s, u) && CanShut(s, u, k) && p in AfterShut(s, u, k).pipes && (p in s.pipes ==> PipeOk(s, p))
    ensures PipeOk(AfterShut(s, u, k), p)
  {
  }

  lemma ShutPipeFree(s: State, u: Thread, k: ShutStep, p: PipeId)
    requires k.Free?
    requires Own(s, u) && CanShut(s, u, k) && p in AfterShut(s, u, k).pipes && (p in s.pipes ==> PipeOk(s, p))
    ensures PipeOk(AfterShut(s, u, k), p)
  {
  }

  lemma ShutPipeOut(s: State, u: Thread, k: ShutStep, p: PipeId)
    requires k.HandOver? || k.Free?
    requires Own(s, u) && CanShut(s, u, k) && p in AfterShut(s, u, k).pipes && (p in s.pipes ==> PipeOk(s, p))
    ensures PipeOk(AfterShut(s, u, k), p)
  {
    if k.HandOver? { ShutPipeHandOver(s, u, k, p); } else { ShutPipeFree(s, u, k, p); }
  }

  lemma ShutPipe(s: State, u: Thread, k: ShutStep, p: PipeId)
    requires Own(s, u) && CanShut(s, u, k) && p in AfterShut(s, u, k).pipes && (p in s.pipes ==> PipeOk(s, p))
    ensures PipeOk(AfterShut(s, u, k), p)
  {
    if k.Enter? || k.Skip? || k.SwapOut? { ShutPipeIn(s, u, k, p); } else { ShutPipeOut(s, u, k, p); }
  }

  lemma ShutHandIn(s: State, u: Thread, k: ShutStep, h: HandId)
    requires k.Enter? || k.Skip? || k.SwapOut?
    requires Own(s, u) && CanShut(s, u, k) && HandOk(s, h)
    requires h in s.hands && s.hands[h].pipe in s.pipes ==> PipeOk(s, s.hands[h].pipe)
    ensures HandOk(AfterShut(s, u, k), h)
  {
  }

  lemma ShutHandOut(s: State, u: Thread, k: ShutStep, h: HandId)
    requires k.HandOver? || k.Free?
    requires Own(s, u) && CanShut(s, u, k) && HandOk(s, h)
    requires h in s.hands && s.hands[h].pipe in s.pipes ==> PipeOk(s, s.hands[h].pipe)
    ensures HandOk(AfterShut(s, u, k), h)
  {
  }

  lemma ShutHand(s: State, u: Thread, k: ShutStep, h: HandId)
    requires Own(s, u) && CanShut(s, u, k) && HandOk(s, h)
    requires h in s.hands && s.hands[h].pipe in s.pipes ==> PipeOk(s, s.hands[h].pipe)
    ensures HandOk(AfterShut(s, u, k), h)
  {
    if k.Enter? || k.Skip? || k.SwapOut? { ShutHandIn(s, u, k, h); } else { ShutHandOut(s, u, k, h); }
  }

  lemma ApartKept(s: State, s': State, u: Thread, t: Thread, v: Thread)
    requires Inv(s) && Guarantee(s, s', u) && StepOk(s, s', u)
    ensures Apart(s', t, v)
  {
    assert Apart(s, t, v) && Own(s, t) && Own(s, v);
    assert t != u ==> s'.At(t) == s.At(t);
    assert v != u ==> s'.At(v) == s.At(v);
  }

  /** The guarantee and what comes with it. */
  lemma StepGuarantee(s: State, max: nat, u: Thread, a: Step)
    requires Inv(s) && Can(s, max, u, a)
    ensures Guarantee(s, After(s, max, u, a), u) && StepOk(s, After(s, max, u, a), u)
  {
    assert Own(s, u);
    match a
    case Open(o) => OpenGuarantee(s, max, u, o); OpenOk(s, max, u, o);
    case Use(x) => UseGuarantee(s, u, x); UseOk(s, u, x);
    case Retire(r) => RetireGuarantee(s, u, r); RetireOk(s, u, r);
    case Close(c) => CloseGuarantee(s, u, c); CloseOk(s, u, c);
    case DoShut(k) => ShutGuarantee(s, u, k); ShutOk(s, u, k);
  }

  lemma StepPipe(s: State, max: nat, u: Thread, a: Step, p: PipeId)
    requires Inv(s) && Can(s, max, u, a) && p in After(s, max, u, a).pipes
    ensures PipeOk(After(s, max, u, a), p)
  {
    assert Own(s, u);
    match a
    case Open(o) => OpenPipe(s, max, u, o, p);
    case Use(x) => UsePipe(s, u, x, p);
    case Retire(r) => RetirePipe(s, u, r, p);
    case Close(c) => ClosePipe(s, u, c, p);
    case DoShut(k) => ShutPipe(s, u, k, p);
  }

  lemma StepHand(s: State, max: nat, u: Thread, a: Step, h: HandId)
    requires Inv(s) && Can(s, max, u, a)
    ensures HandOk(After(s, max, u, a), h)
  {
    assert Own(s, u) && HandOk(s, h);
    match a
    case Open(o) => OpenHand(s, max, u, o, h);
    case Use(x) => UseHand(s, u, x, h);
    case Retire(r) => RetireHand(s, u, r, h);
    case Close(c) => CloseHand(s, u, c, h);
    case DoShut(k) => ShutHand(s, u, k, h);
  }

  /** Every step of every thread keeps the invariant. */
  lemma InvKept(s: State, max: nat, u: Thread, a: Step)
    requires Inv(s) && Can(s, max, u, a)
    ensures Inv(After(s, max, u, a))
  {
    var s' := After(s, max, u, a);
    StepGuarantee(s, max, u, a);
    forall t ensures Own(s', t) { if t != u { OthersKept(s, s', u, t); } }
    forall t, v ensures Apart(s', t, v) { ApartKept(s, s', u, t, v); }
    forall p | p in s'.pipes ensures PipeOk(s', p) { StepPipe(s, max, u, a, p); }
    forall h ensures HandOk(s', h) { StepHand(s, max, u, a, h); }
  }
}
