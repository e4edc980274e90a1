/** Over every run of a pipelined connection: answers never cross, each call gets one result, the load
    counts the calls not yet dealt with, and every call waiting on a broken pipe can return. */
module PipeRuns {
  import opened Collections
  import opened Prefixes
  import opened PipeAnswers

  /** The state acts lead to from s; None when one of them could not happen. */
  function Play(s: State, room: nat, acts: seq<Act>): Option<State>
    decreases |acts|
  {
    if acts == [] then Some(s)
    else if Can(s, room, acts[0]) then Play(After(s, room, acts[0]), room, acts[1..]) else None
  }

  // ---- the load ----

  /** c is counted in the pipe's load: it has joined and nothing has dealt with it yet. */
  predicate Counts(s: State, c: CallId) {
    c in s.calls &&
    (s.calls[c].Joined? || s.calls[c].Locked? || c in s.queue || s.reader == Reading(c) ||
     (s.reader.Read? && s.reader.call == c) || s.reader == Handed(c))
  }

  function Counted(s: State): set<CallId> { set c | c in s.calls && Counts(s, c) }

  function Leaves(s: State, a: Act): set<CallId> {
    match a
    case ByCaller(c, x) => if x.QuitBroken? || x.QuitCancelled? then {c} else {}
    case OnWire(_) => {}
    case ByTheReader(x) =>
      match x
      case ReadError => if s.reader.Reading? then {s.reader.call} else {}
      case Finish(_) => if s.reader.Handed? then {s.reader.call} else {}
      case DrainOne => if s.queue != [] then {s.queue[0]} else {}
      case DrainLockedOne => if s.queue != [] then {s.queue[0]} else {}
      case _ => {}
  }

  function Enters(a: Act): set<CallId> { if a.ByCaller? && a.call.Join? then {a.c} else {} }

  predicate CountMove(s: State, s': State, a: Act, x: CallId) {
    && (Counts(s', x) <==> (Counts(s, x) && x !in Leaves(s, a)) || x in Enters(a))
    && (x in Leaves(s, a) ==> Counts(s, x)) && (x in Enters(a) ==> !Counts(s, x))
  }

  lemma QueueOut(s: State, c: CallId)
    requires QueueOk(s)
    ensures c in s.queue ==> c in s.order && !Out(s, c)
    ensures s.queue != [] ==> s.queue[0] !in s.queue[1..]
  {
    if c in s.queue {
      var i :| 0 <= i < |s.queue| && s.queue[i] == c;
      assert s.order[Popped(s) + i] == c;
    }
  }

  /** The call the reader is on, done with or not. */
  function On(r: Reader): Option<CallId> { if r.Handed? then Some(r.call) else Current(r) }

  lemma OnIsOut(s: State)
    requires QueueOk(s) && ReaderOk(s) && On(s.reader).Some?
    ensures On(s.reader).value in s.order && On(s.reader).value !in s.queue
  {
    var c := On(s.reader).value;
    assert c == s.order[Popped(s) - 1];
    assert c in s.order[..Popped(s)];
    QueueOut(s, c);
  }

  /** A call not yet queued is in nobody's hands. */
  predicate Apart(s: State, c: CallId) { c !in s.queue && On(s.reader) != Some(c) }

  lemma NotQueuedYet(s: State, c: CallId)
    requires CallOk(s, c) && QueueOk(s) && ReaderOk(s) && (c in s.calls ==> s.calls[c].Joined? || s.calls[c].Locked?)
    ensures Apart(s, c)
  {
    QueueOut(s, c);
    if On(s.reader).Some? { OnIsOut(s); }
  }

  lemma EnqueueCounts(s: State, room: nat, c: CallId, x: CallId)
    requires CanCall(s, room, c, Enqueue)
    ensures CountMove(s, AfterCall(s, room, c, Enqueue), ByCaller(c, Enqueue), x)
  {
    assert x in s.queue + [c] <==> x in s.queue || x == c;
  }

  lemma CallCounts(s: State, room: nat, c: CallId, a: CallAct, x: CallId)
    requires CanCall(s, room, c, a) && !a.Enqueue?
    requires (c in s.calls && !s.calls[c].Joined? && !s.calls[c].Locked?) || Apart(s, c)
    ensures CountMove(s, AfterCall(s, room, c, a), ByCaller(c, a), x)
  {
  }

  /** c is the reader's or the queue's, so its caller is past queueing it. */
  predicate Past(s: State, c: CallId) { c in s.calls && !s.calls[c].Joined? && !s.calls[c].Locked? }

  lemma TakeCounts(s: State, a: ReadAct, x: CallId)
    requires CanRead(s, a) && (a.Take? || a.DrainOne? || a.DrainLockedOne?)
    requires Past(s, s.queue[0]) && s.queue[0] !in s.queue[1..]
    ensures CountMove(s, AfterRead(s, a), ByTheReader(a), x)
  {
    assert s.queue == [s.queue[0]] + s.queue[1..];
  }

  lemma ReadCounts(s: State, a: ReadAct, x: CallId)
    requires CanRead(s, a) && !a.Take? && !a.DrainOne? && !a.DrainLockedOne?
    requires On(s.reader).Some? ==> On(s.reader).value !in s.queue && Past(s, On(s.reader).value)
    ensures CountMove(s, AfterRead(s, a), ByTheReader(a), x)
  {
  }

  lemma ReaderCounts(s: State, a: ReadAct, x: CallId)
    requires CanRead(s, a) && QueueOk(s) && ReaderOk(s) && forall c :: CallOk(s, c)
    ensures CountMove(s, AfterRead(s, a), ByTheReader(a), x)
  {
    if a.Take? || a.DrainOne? || a.DrainLockedOne? {
      QueueOut(s, s.queue[0]);
      assert CallOk(s, s.queue[0]);
      TakeCounts(s, a, x);
    } else {
      if On(s.reader).Some? {
        OnIsOut(s);
        assert CallOk(s, On(s.reader).value);
      }
      ReadCounts(s, a, x);
    }
  }

  lemma StepCounts(s: State, room: nat, a: Act, x: CallId)
    requires Inv(s) && Can(s, room, a)
    ensures CountMove(s, After(s, room, a), a, x)
  {
    match a
    case ByCaller(c, y) =>
      assert CallOk(s, c);
      if c !in s.calls || s.calls[c].Joined? || s.calls[c].Locked? { NotQueuedYet(s, c); }
      if y.Enqueue? { EnqueueCounts(s, room, c, x); } else { CallCounts(s, room, c, y, x); }
    case OnWire(_) =>
    case ByTheReader(y) => ReaderCounts(s, y, x);
  }

  lemma CallLoad(s: State, room: nat, c: CallId, a: CallAct)
    requires CanCall(s, room, c, a)
    ensures AfterCall(s, room, c, a).load == s.load - |Leaves(s, ByCaller(c, a))| + |Enters(ByCaller(c, a))|
  {
  }

  lemma ReadLoad(s: State, a: ReadAct)
    requires CanRead(s, a)
    ensures AfterRead(s, a).load == s.load - |Leaves(s, ByTheReader(a))|
  {
  }

  lemma LoadMoves(s: State, room: nat, a: Act)
    requires Can(s, room, a)
    ensures After(s, room, a).load == s.load - |Leaves(s, a)| + |Enters(a)|
  {
    match a
    case ByCaller(c, x) => CallLoad(s, room, c, x);
    case OnWire(_) =>
    case ByTheReader(x) => ReadLoad(s, x);
  }

  lemma CountedMoves(s: State, room: nat, a: Act)
    requires Inv(s) && Can(s, room, a)
    ensures Counted(After(s, room, a)) == (Counted(s) - Leaves(s, a)) + Enters(a)
    ensures Leaves(s, a) <= Counted(s) && Enters(a) !! Counted(s)
  {
    var s' := After(s, room, a);
    forall x ensures x in Counted(s') <==> x in (Counted(s) - Leaves(s, a)) + Enters(a) { StepCounts(s, room, a, x); }
    forall x | x in Leaves(s, a) ensures x in Counted(s) { StepCounts(s, room, a, x); }
    forall x | x in Enters(a) ensures x !in Counted(s) { StepCounts(s, room, a, x); }
  }

  lemma LoadKept(s: State, room: nat, a: Act)
    requires Inv(s) && Can(s, room, a) && s.load == |Counted(s)|
    ensures After(s, room, a).load == |Counted(After(s, room, a))|
  {
    LoadMoves(s, room, a);
    CountedMoves(s, room, a);
    assert Counted(s) == (Counted(s) - Leaves(s, a)) + Leaves(s, a);
    assert (Counted(s) - Leaves(s, a)) !! Enters(a);
  }

  // ---- whole runs ----

  ghost predicate Safe(s: State) { Inv(s) && s.load == |Counted(s)| }

  /** Over every run of callers, reader, server and breaks: the invariant holds and the load is exact. */
  lemma {:induction false} EveryRun(s: State, room: nat, acts: seq<Act>)
    requires Safe(s) && Play(s, room, acts).Some?
    ensures Safe(Play(s, room, acts).value)
    decreases |acts|
  {
    if acts != [] {
      InvKept(s, room, acts[0]);
      LoadKept(s, room, acts[0]);
      EveryRun(After(s, room, acts[0]), room, acts[1..]);
    }
  }

  lemma InitCall(c: CallId)
    ensures CallOk(Init(), c) && DoneOk(Init(), c) && c !in Counted(Init())
  {
  }

  lemma InitSafe()
    ensures Safe(Init())
  {
    var s := Init();
    forall c ensures CallOk(s, c) && DoneOk(s, c) && c !in Counted(s) { InitCall(c); }
    assert Counted(s) == {};
    assert LockOk(s) && ReaderOk(s);
    assert QueueOk(s);
    assert WireOk(s);
  }

  /** Answers never cross: an answer handed or returned to a call is the answer to its own command. */
  lemma OwnAnswer(room: nat, acts: seq<Act>, c: CallId)
    requires Play(Init(), room, acts).Some?
    ensures var s := Play(Init(), room, acts).value;
            c in s.calls && s.calls[c].Back? && s.calls[c].result.Answer? ==> s.calls[c].result.of_ == c
    ensures var s := Play(Init(), room, acts).value; c in s.done && s.done[c].Answer? ==> s.done[c].of_ == c
  {
    InitSafe();
    EveryRun(Init(), room, acts);
    assert CallOk(Play(Init(), room, acts).value, c) && DoneOk(Play(Init(), room, acts).value, c);
  }

  /** The call a step of the reader gives a result to. */
  function Recipient(s: State, a: ReadAct): Option<CallId>
    requires CanRead(s, a)
  {
    match a
    case Deliver => Some(s.reader.call)
    case Fail => Some(s.reader.call)
    case DrainOne => Some(s.queue[0])
    case DrainLockedOne => Some(s.queue[0])
    case _ => None
  }

  /** No call gets a second result, so the reader never waits on a call's channel. */
  lemma OneResult(room: nat, acts: seq<Act>, a: ReadAct)
    requires Play(Init(), room, acts).Some? && CanRead(Play(Init(), room, acts).value, a)
    ensures var s := Play(Init(), room, acts).value; Recipient(s, a).Some? ==> Recipient(s, a).value !in s.done
  {
    InitSafe();
    EveryRun(Init(), room, acts);
    var s := Play(Init(), room, acts).value;
    if Recipient(s, a).Some? {
      var c := Recipient(s, a).value;
      assert DoneOk(s, c);
      if a.DrainOne? || a.DrainLockedOne? { QueueOut(s, c); }
    }
  }

  lemma CallReturnsOnce(s: State, room: nat, d: CallId, a: CallAct, c: CallId)
    requires CanCall(s, room, d, a) && c in s.calls && (s.calls[c].Back? || c != d)
    ensures c in AfterCall(s, room, d, a).calls && AfterCall(s, room, d, a).calls[c] == s.calls[c]
  {
  }

  lemma ReaderLeavesCalls(s: State, a: ReadAct)
    requires CanRead(s, a)
    ensures AfterRead(s, a).calls == s.calls && (s.broken ==> AfterRead(s, a).broken)
  {
  }

  /** What a call has returned it has returned for good. */
  lemma ReturnsOnce(s: State, room: nat, a: Act, c: CallId)
    requires Can(s, room, a) && c in s.calls && s.calls[c].Back?
    ensures c in After(s, room, a).calls && After(s, room, a).calls[c] == s.calls[c]
  {
    match a
    case ByCaller(d, x) => CallReturnsOnce(s, room, d, x, c);
    case OnWire(_) =>
    case ByTheReader(x) => ReaderLeavesCalls(s, x);
  }

  // ---- a broken pipe ----

  /** How far the reader is from closing dead. */
  function Rank(r: Reader): nat {
    match r
    case Read(_, _) => 9
    case Reading(_) => 9
    case Handed(_) => 8
    case ReadFailed(_) => 8
    case Selecting => 7
    case Failing1(_) => 7
    case Draining => 6
    case Locking => 5
    case DrainingLocked => 4
    case Dead => 0
  }

  function HolderRank(s: State): nat {
    if !s.lock.ByCall? || s.lock.call !in s.calls then 0
    else match s.calls[s.lock.call]
      case Queued => 4
      case Failing => 3
      case Wrote => 2
      case _ => 1
  }

  predicate Closer(s: State, s': State) {
    Rank(s'.reader) < Rank(s.reader) ||
    (Rank(s'.reader) == Rank(s.reader) &&
     (|s'.queue| < |s.queue| || (|s'.queue| == |s.queue| && HolderRank(s') < HolderRank(s))))
  }

  lemma HolderOnward(s: State, room: nat, c: CallId) returns (a: Act)
    requires LockOk(s) && s.lock.ByCall? && s.broken && s.Is(c, Waits)
    ensures Can(s, room, a) && Closer(s, After(s, room, a)) && After(s, room, a).broken
    ensures After(s, room, a).Is(c, Waits)
  {
    var d := s.lock.call;
    var x := match s.calls[d]
      case Locked => QuitBroken
      case Queued => WriteFails(false)
      case Failing => ShutAfterWrite
      case _ => Unlock;
    a := ByCaller(d, x);
    CallReturnsOnce(s, room, d, x, c);
  }

  function NextRead(s: State): ReadAct {
    match s.reader
    case Read(_, _) => Deliver
    case Reading(_) => ReadError
    case Handed(_) => Finish(false)
    case ReadFailed(_) => Shut
    case Selecting => SeeBroken
    case Failing1(_) => Fail
    case Draining => if s.queue == [] then DrainEnd else DrainOne
    case Locking => ReaderLock
    case DrainingLocked => if s.queue == [] then DrainLockedEnd else DrainLockedOne
    case Dead => SeeBroken
  }

  lemma ReaderOnward(s: State)
    requires s.broken && !s.reader.Dead? && (s.reader.Locking? ==> s.lock.Free?)
    ensures CanRead(s, NextRead(s)) && Closer(s, AfterRead(s, NextRead(s)))
  {
  }

  /** On a broken pipe the reader can go on, or the caller it waits for can. */
  lemma Onward(s: State, room: nat, c: CallId) returns (a: Act)
    requires Inv(s) && s.broken && s.Is(c, Waits) && !s.reader.Dead?
    ensures Can(s, room, a) && Closer(s, After(s, room, a)) && After(s, room, a).broken
    ensures After(s, room, a).Is(c, Waits)
  {
    if s.reader.Locking? && s.lock.ByCall? {
      a := HolderOnward(s, room, c);
    } else {
      ReaderOnward(s);
      ReaderLeavesCalls(s, NextRead(s));
      a := ByTheReader(NextRead(s));
    }
  }

  /** Every call waiting on a broken pipe can return. */
  lemma {:induction false} CanReturn(s: State, room: nat, c: CallId) returns (acts: seq<Act>)
    requires Inv(s) && s.broken && s.Is(c, Waits)
    ensures Play(s, room, acts).Some? && c in Play(s, room, acts).value.calls
    ensures Play(s, room, acts).value.calls[c].Back?
    decreases Rank(s.reader), |s.queue|, HolderRank(s)
  {
    if s.reader.Dead? {
      acts := [ByCaller(c, SeeDead)];
      assert Play(After(s, room, acts[0]), room, acts[1..]) == Some(After(s, room, acts[0]));
    } else {
      var a := Onward(s, room, c);
      InvKept(s, room, a);
      var rest := CanReturn(After(s, room, a), room, c);
      acts := [a] + rest;
      assert acts[1..] == rest;
    }
  }

  /** Once the reader is gone, a call that queued itself has a result in its channel unless it is still queued. */
  lemma ResultUnlessQueued(s: State, c: CallId)
    requires Inv(s) && s.reader.Dead? && c in s.order
    ensures c in s.done <==> c !in s.queue
  {
    assert CallOk(s, c) && DoneOk(s, c);
    QueueOut(s, c);
    assert s.order == s.order[..Popped(s)] + s.queue;
  }

  /** The calls a run queues after the reader is gone, in order. */
  function Late(s: State, room: nat, acts: seq<Act>): seq<CallId>
    requires Play(s, room, acts).Some?
    decreases |acts|
  {
    if acts == [] then []
    else LateIn(s, acts[0]) + Late(After(s, room, acts[0]), room, acts[1..])
  }

  function LateIn(s: State, a: Act): seq<CallId> {
    if s.reader.Dead? && a.ByCaller? && a.call.Enqueue? then [a.c] else []
  }

  lemma {:induction false} CallQueue(s: State, room: nat, c: CallId, a: CallAct)
    requires CanCall(s, room, c, a)
    ensures AfterCall(s, room, c, a).reader == s.reader
    ensures AfterCall(s, room, c, a).queue == s.queue + if a.Enqueue? then [c] else []
  {
  }

  lemma {:induction false} ReadQueueLast(s: State, a: ReadAct)
    requires CanRead(s, a)
    ensures !s.reader.Dead? && (AfterRead(s, a).reader.Dead? ==> AfterRead(s, a).queue == [])
  {
  }

  /** The reader leaves an empty queue behind, and from then on the queue only takes in calls. */
  lemma {:induction false} QueueAfter(s: State, room: nat, a: Act)
    requires Can(s, room, a)
    ensures s.reader.Dead? ==> After(s, room, a).reader.Dead? && After(s, room, a).queue == s.queue + LateIn(s, a)
    ensures !s.reader.Dead? && After(s, room, a).reader.Dead? ==> After(s, room, a).queue == []
  {
    match a
    case ByCaller(c, x) => CallQueue(s, room, c, x);
    case OnWire(_) =>
    case ByTheReader(x) => ReadQueueLast(s, x);
  }

  /** Once the reader is gone, the queue is what it was then, which is nothing if the run saw the reader go, and
      the calls queued since. */
  lemma {:induction false} LateQueue(s: State, room: nat, acts: seq<Act>)
    requires Play(s, room, acts).Some? && Play(s, room, acts).value.reader.Dead?
    ensures Play(s, room, acts).value.queue == (if s.reader.Dead? then s.queue else []) + Late(s, room, acts)
    decreases |acts|
  {
    if acts != [] {
      var a, rest := acts[0], acts[1..];
      var s' := After(s, room, a);
      LateQueue(s', room, rest);
      QueueAfter(s, room, a);
      if s.reader.Dead? { Assoc(s.queue, LateIn(s, a), Late(s', room, rest)); }
    }
  }

  /** After every run whose reader is gone, the calls without a result, of all that queued themselves, are just
      those that did so when the reader was gone already. */
  lemma {:induction false} OnlyLateUnanswered(room: nat, acts: seq<Act>, c: CallId)
    requires Play(Init(), room, acts).Some? && Play(Init(), room, acts).value.reader.Dead?
    ensures var s := Play(Init(), room, acts).value;
            && (s.Is(c, Waits) ==> c in s.order)
            && (c in s.order ==> (c !in s.done <==> c in Late(Init(), room, acts)))
  {
    InitSafe();
    EveryRun(Init(), room, acts);
    LateQueue(Init(), room, acts);
    var s := Play(Init(), room, acts).value;
    assert CallOk(s, c);
    if c in s.order { ResultUnlessQueued(s, c); }
  }

  lemma {:induction false} PlayOn(s: State, room: nat, acts: seq<Act>, a: Act)
    requires Play(s, room, acts).Some? && Can(Play(s, room, acts).value, room, a)
    ensures Play(s, room, acts + [a]) == Some(After(Play(s, room, acts).value, room, a))
    decreases |acts|
  {
    if acts == [] {
      assert (acts + [a])[1..] == [];
    } else {
      PlayOn(After(s, room, acts[0]), room, acts[1..], a);
      assert (acts + [a])[1..] == acts[1..] + [a];
    }
  }

  /** Such a call exists: one that takes the lock after the reader released it can still queue itself. */
  lemma LateCall() returns (acts: seq<Act>)
    ensures Play(Init(), 1, acts).Some?
    ensures var s := Play(Init(), 1, acts).value; s.reader.Dead? && s.queue == [0] && s.Is(0, Waits) && 0 !in s.done
  {
    var dead := DeadPipe();
    acts := LateCallOn(dead);
  }

  lemma DeadPipe() returns (acts: seq<Act>)
    ensures Play(Init(), 1, acts) == Some(Init().Set(0, Joined).(load := 1, broken := true, reader := Dead))
  {
    acts := [];
    PlayOn(Init(), 1, acts, ByCaller(0, Join));
    acts := acts + [ByCaller(0, Join)];
    PlayOn(Init(), 1, acts, OnWire(Break));
    acts := acts + [OnWire(Break)];
    PlayOn(Init(), 1, acts, ByTheReader(SeeBroken));
    acts := acts + [ByTheReader(SeeBroken)];
    PlayOn(Init(), 1, acts, ByTheReader(DrainEnd));
    acts := acts + [ByTheReader(DrainEnd)];
    PlayOn(Init(), 1, acts, ByTheReader(ReaderLock));
    acts := acts + [ByTheReader(ReaderLock)];
    PlayOn(Init(), 1, acts, ByTheReader(DrainLockedEnd));
    acts := acts + [ByTheReader(DrainLockedEnd)];
  }

  lemma LateCallOn(dead: seq<Act>) returns (acts: seq<Act>)
    requires Play(Init(), 1, dead) == Some(Init().Set(0, Joined).(load := 1, broken := true, reader := Dead))
    ensures Play(Init(), 1, acts).Some?
    ensures var s := Play(Init(), 1, acts).value; s.reader.Dead? && s.queue == [0] && s.Is(0, Waits) && 0 !in s.done
  {
    acts := dead;
    PlayOn(Init(), 1, acts, ByCaller(0, Acquire));
    acts := acts + [ByCaller(0, Acquire)];
    PlayOn(Init(), 1, acts, ByCaller(0, Enqueue));
    acts := acts + [ByCaller(0, Enqueue)];
    PlayOn(Init(), 1, acts, ByCaller(0, WriteFails(false)));
    acts := acts + [ByCaller(0, WriteFails(false))];
    PlayOn(Init(), 1, acts, ByCaller(0, ShutAfterWrite));
    acts := acts + [ByCaller(0, ShutAfterWrite)];
    PlayOn(Init(), 1, acts, ByCaller(0, Unlock));
    acts := acts + [ByCaller(0, Unlock)];
  }
}
