/** No run of PipeSlots' steps gets stuck: however threads in the middle of something go on, they come to rest,
    and then every retired pipe without load is shut. */
module SlotProgress {
  import opened Collections
  import opened Prefixes
  import opened PipeSlots
  import opened SlotOwners

  predicate Midway(s: State, t: Thread) { !s.At(t).Idle? && !s.At(t).Waiting? }

  function StageRank(at: Stage): nat {
    match at
    case Before => 4
    case Swap => 3
    case Give(_) => 2
    case Release => 1
  }

  /** How many steps a thread is from being idle, at most. */
  function Rank(pc: Pc): nat {
    match pc
    case Idle => 0
    case GaveUp(_) => 1
    case Opened(_, _) => 5
    case Checking(_) => 5
    case Opening(_) => 6
    case Got(_) => 7
    case Waiting(_, _) => 8
    case Retired(_, _, _) => 13
    case Unlisted(_, _) => 14
    case Shut(at, _, next) => StageRank(at) + Rank(next)
    case Closing(ps) => 5 * |ps| + 1
  }

  /** p has no load and no way to gain one. */
  ghost predicate Unused(s: State, p: PipeId) {
    p in s.pipes && !s.pipes[p].listed && s.pipes[p].load == 0 && forall t :: s.At(t).Opened? ==> s.At(t).pipe != p
  }

  /** A step of t brings t nearer to being idle, leaves the others where they are, and brings no load. */
  ghost predicate Down(s: State, s': State, t: Thread) {
    && Rank(s'.At(t)) < Rank(s.At(t)) && s'.threads.Keys == s.threads.Keys
    && (forall u :: u != t ==> s'.At(u) == s.At(u))
    && forall p :: Unused(s, p) ==> Unused(s', p)
  }

  // ---- every step of a thread that is not idle goes down ----

  lemma {:induction false} OpenDown(s: State, max: nat, t: Thread, o: OpenStep)
    requires Own(s, t) && CanOpen(s, max, t, o) && !s.At(t).Idle?
    ensures Down(s, AfterOpen(s, max, t, o), t)
  {
  }

  lemma {:induction false} UseDown(s: State, t: Thread, a: UseStep)
    requires CanUse(s, t, a) && !s.At(t).Idle?
    ensures Down(s, AfterUse(s, t, a), t)
  {
  }

  lemma {:induction false} RetireDown(s: State, t: Thread, r: RetireStep)
    requires CanRetire(s, t, r) && !s.At(t).Idle?
    ensures Down(s, AfterRetire(s, t, r), t)
  {
  }

  lemma {:induction false} CloseDown(s: State, t: Thread, c: CloseStep)
    requires CanClose(s, t, c) && !s.At(t).Idle?
    ensures Down(s, AfterClose(s, t, c), t)
  {
    if c.NextPipe? { assert |s.At(t).pipes - {c.p}| == |s.At(t).pipes| - 1; }
  }

  lemma {:induction false} ShutDown(s: State, t: Thread, k: ShutStep)
    requires Own(s, t) && CanShut(s, t, k)
    ensures Down(s, AfterShut(s, t, k), t)
  {
    assert !s.At(t).next.Opened? && Rank(s.At(t).next) < Rank(s.At(t));
  }

  lemma {:induction false} StepDown(s: State, max: nat, t: Thread, a: Step)
    requires Inv(s) && Can(s, max, t, a) && !s.At(t).Idle?
    ensures Down(s, After(s, max, t, a), t)
  {
    assert Own(s, t);
    match a
    case Open(o) => OpenDown(s, max, t, o);
    case Use(u) => UseDown(s, t, u);
    case Retire(r) => RetireDown(s, t, r);
    case Close(c) => CloseDown(s, t, c);
    case DoShut(k) => ShutDown(s, t, k);
  }

  // ---- some thread can go on ----

  /** No other thread is shutting the pipe t is about to shut. */
  predicate Clear(s: State, t: Thread) {
    s.At(t).Shut? && s.At(t).pipe in s.pipes && (s.At(t).at.Before? ==> !s.pipes[s.At(t).pipe].once.Running?)
  }

  lemma {:induction false} CanShutOn(s: State, max: nat, t: Thread) returns (k: ShutStep)
    requires Inv(s) && Conserved(s, max) && Clear(s, t)
    ensures CanShut(s, t, k)
  {
    assert Own(s, t);
    var p := s.At(t).pipe;
    match s.At(t).at
    case Before => k := if s.pipes[p].once.Live? then Enter else Skip;
    case Swap => k := SwapOut;
    case Give(_) => k := HandOver;
    case Release =>
      OwnersIff(s, ByPipe(p));
      assert ByPipe(p) in Owners(s);
      k := Free;
  }

  lemma {:induction false} AboveAll(ids: set<nat>) returns (id: nat)
    ensures forall x :: x in ids ==> x < id
    decreases ids
  {
    if ids == {} { return 0; }
    var x := Pick(ids);
    id := AboveAll(ids - {x});
    id := Max(id, x + 1);
    assert forall y :: y in ids ==> y == x || y in ids - {x};
  }

  /** While a thread is in the middle of something, one of those that are can go on. */
  lemma {:induction false} Onward(s: State, max: nat, t: Thread) returns (w: Thread, a: Step)
    requires Inv(s) && Conserved(s, max) && Midway(s, t)
    ensures Midway(s, w) && Can(s, max, w, a)
  {
    w := t;
    if (s.At(t).Got? || s.At(t).GaveUp?) && s.reclaim.Some? {
      w := s.reclaim.value;
      assert Own(s, w);
    }
    if s.At(w).Shut? {
      w := Shutter(s, w);
      var k := CanShutOn(s, max, w);
      a := DoShut(k);
    } else {
      a := OutOfShut(s, max, w);
    }
  }

  /** A thread in shut, or the one it waits for. */
  lemma {:induction false} Shutter(s: State, t: Thread) returns (w: Thread)
    requires Inv(s) && s.At(t).Shut?
    ensures Clear(s, w)
  {
    assert Own(s, t);
    assert PipeOk(s, s.At(t).pipe);
    w := t;
    if s.At(t).at.Before? && s.pipes[s.At(t).pipe].once.Running? {
      w := s.pipes[s.At(t).pipe].once.thread;
    }
  }

  lemma {:induction false} OutOfShut(s: State, max: nat, t: Thread) returns (a: Step)
    requires Inv(s) && Conserved(s, max) && Midway(s, t) && !s.At(t).Shut?
    requires s.At(t).Got? || s.At(t).GaveUp? ==> s.reclaim.None?
    ensures Can(s, max, t, a)
  {
    assert Own(s, t);
    match s.At(t)
    case Opening(_) =>
      OwnersIff(s, ByThread(t));
      assert ByThread(t) in Owners(s);
      a := Open(DialFails);
    case Opened(_, _) => a := Open(List);
    case Unlisted(_, _) =>
      var h := AboveAll(s.hands.Keys);
      a := Retire(SetHandoff(h));
    case Retired(_, _, _) => a := Retire(CheckLoad);
    case Got(_) => a := Retire(Uncount);
    case GaveUp(_) => a := Retire(Uncount);
    case Checking(_) => a := Use(CheckHandoff);
    case Closing(ps) =>
      if ps == {} {
        a := Close(EndClose);
      } else {
        var p := Pick(ps);
        a := Close(NextPipe(p));
      }
  }

  /** No run deadlocks: while a thread is in the middle of something, one of those that are can go on. */
  lemma {:induction false} NoDeadlock(max: nat, acts: seq<(Thread, Step)>, t: Thread) returns (w: Thread, a: Step)
    requires Play(max, acts).Some? && Midway(Play(max, acts).value, t)
    ensures Midway(Play(max, acts).value, w) && Can(Play(max, acts).value, max, w, a)
  {
    EveryRun(max, acts);
    w, a := Onward(Play(max, acts).value, max, t);
  }

  // ---- coming to rest ----

  /** What the threads below n are from being idle, together. */
  function Total(s: State, n: nat): nat { if n == 0 then 0 else Total(s, n - 1) + Rank(s.At(n - 1)) }

  lemma {:induction false} TotalDown(s: State, s': State, t: Thread, n: nat)
    requires Rank(s'.At(t)) < Rank(s.At(t)) && forall u :: u != t ==> s'.At(u) == s.At(u)
    ensures if t < n then Total(s', n) < Total(s, n) else Total(s', n) == Total(s, n)
    decreases n
  {
    if n > 0 { TotalDown(s, s', t, n - 1); }
  }

  predicate Within(s: State, n: nat) { forall t :: t in s.threads ==> t < n }

  lemma {:induction false} PlayOn(max: nat, acts: seq<(Thread, Step)>, t: Thread, a: Step)
    requires Play(max, acts).Some? && Can(Play(max, acts).value, max, t, a)
    ensures Play(max, acts + [(t, a)]) == Some(After(Play(max, acts).value, max, t, a))
  {
    assert (acts + [(t, a)])[..|acts|] == acts;
  }

  /** on goes on from acts without new work: each of its steps is by a thread that was not idle. */
  predicate GoesOn(max: nat, acts: seq<(Thread, Step)>, on: seq<(Thread, Step)>)
    decreases |on|
  {
    on == acts ||
    (on != [] && var before := on[..|on| - 1];
     GoesOn(max, acts, before) && Play(max, before).Some? && !Play(max, before).value.At(on[|on| - 1].0).Idle?)
  }

  /** Between them the threads come nearer to being idle with each step, and pipes that were unused still are. */
  lemma {:induction false} GoesDown(max: nat, acts: seq<(Thread, Step)>, on: seq<(Thread, Step)>, n: nat)
    requires Play(max, acts).Some? && Within(Play(max, acts).value, n) && GoesOn(max, acts, on) && Play(max, on).Some?
    ensures acts <= on && Within(Play(max, on).value, n)
    ensures |on| - |acts| + Total(Play(max, on).value, n) <= Total(Play(max, acts).value, n)
    ensures forall p :: Unused(Play(max, acts).value, p) ==> Unused(Play(max, on).value, p)
    decreases |on|
  {
    if on != acts {
      var before, last := on[..|on| - 1], on[|on| - 1];
      GoesDown(max, acts, before, n);
      EveryRun(max, before);
      var s := Play(max, before).value;
      StepDown(s, max, last.0, last.1);
      TotalDown(s, After(s, max, last.0, last.1), last.0, n);
    }
  }

  /** However a run goes on without new work, it ends: there is a bound on its steps before it starts. */
  lemma {:induction false} EveryRunEnds(max: nat, acts: seq<(Thread, Step)>) returns (bound: nat)
    requires Play(max, acts).Some?
    ensures forall on :: GoesOn(max, acts, on) && Play(max, on).Some? ==> acts <= on && |on| <= |acts| + bound
  {
    var n := AboveAll(Play(max, acts).value.threads.Keys);
    bound := Total(Play(max, acts).value, n);
    forall on | GoesOn(max, acts, on) && Play(max, on).Some? ensures acts <= on && |on| <= |acts| + bound {
      GoesDown(max, acts, on, n);
    }
  }

  /** No thread in the middle of something can take a step. */
  ghost predicate Stuck(s: State, max: nat) { forall t, a :: Midway(s, t) ==> !Can(s, max, t, a) }

  /** Wherever a run ends, every thread is at rest, and a pipe that had been retired and had no load is shut. */
  lemma {:induction false} RetiredShutsInTheEnd(max: nat, acts: seq<(Thread, Step)>, on: seq<(Thread, Step)>, p: PipeId)
    requires Play(max, acts).Some? && GoesOn(max, acts, on) && Play(max, on).Some? && Stuck(Play(max, on).value, max)
    ensures Quiet(Play(max, on).value)
    ensures var s := Play(max, acts).value; p in s.pipes && s.pipes[p].handoff.For? && s.pipes[p].load == 0 ==>
            p in Play(max, on).value.pipes && Play(max, on).value.pipes[p].once.Done?
  {
    EveryRun(max, acts);
    EveryRun(max, on);
    var s, end := Play(max, acts).value, Play(max, on).value;
    if !Quiet(end) {
      var t := SomeMidway(end);
      var w, a := Onward(end, max, t);
    }
    if p in s.pipes && s.pipes[p].handoff.For? && s.pipes[p].load == 0 {
      RetiredUnused(s, p);
      var n := AboveAll(s.threads.Keys);
      GoesDown(max, acts, on, n);
      RetiredIsShut(max, on, p);
    }
  }

  lemma {:induction false} SomeMidway(s: State) returns (t: Thread)
    requires !Quiet(s)
    ensures Midway(s, t)
  {
    t :| !(s.At(t).Idle? || s.At(t).Waiting?);
  }

  lemma {:induction false} ComesToRest(max: nat, acts: seq<(Thread, Step)>, on: seq<(Thread, Step)>, n: nat)
    returns (end: seq<(Thread, Step)>)
    requires Play(max, acts).Some? && GoesOn(max, acts, on) && Play(max, on).Some? && Within(Play(max, on).value, n)
    ensures GoesOn(max, acts, end) && Play(max, end).Some? && Quiet(Play(max, end).value)
    decreases Total(Play(max, on).value, n)
  {
    var s := Play(max, on).value;
    if Quiet(s) { return on; }
    EveryRun(max, on);
    var t := SomeMidway(s);
    var w, a := Onward(s, max, t);
    PlayOn(max, on, w, a);
    StepDown(s, max, w, a);
    TotalDown(s, After(s, max, w, a), w, n);
    assert (on + [(w, a)])[..|on|] == on;
    end := ComesToRest(max, acts, on + [(w, a)], n);
  }

  /** Every run can go on until all threads are at rest. */
  lemma {:induction false} EveryRunRests(max: nat, acts: seq<(Thread, Step)>) returns (on: seq<(Thread, Step)>)
    requires Play(max, acts).Some?
    ensures acts <= on && GoesOn(max, acts, on) && Play(max, on).Some? && Quiet(Play(max, on).value)
  {
    var n := AboveAll(Play(max, acts).value.threads.Keys);
    on := ComesToRest(max, acts, acts, n);
    GoesDown(max, acts, on, n);
  }

  lemma {:induction false} RetiredUnused(s: State, p: PipeId)
    requires Inv(s) && p in s.pipes && s.pipes[p].handoff.For? && s.pipes[p].load == 0
    ensures Unused(s, p)
  {
    assert PipeOk(s, p);
    forall t | s.At(t).Opened? ensures s.At(t).pipe != p { assert Own(s, t); }
  }
}
