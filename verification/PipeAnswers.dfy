/** One pipelined connection (resolve/irrd/pipeline.go:390-473): callers queue a call and write its
    command under the pipe's lock, the server answers commands in order, and the reader hands answers
    out in that order. Steps interleave freely; a caller may give up and the pipe may break at any time. */
module PipeAnswers {
  import opened Prefixes

  type CallId = nat

  /** What a call returns: the answer to the command of some call, an error, or its context's error. */
  datatype Result = Answer(of_: CallId) | Failed | Cancelled

  /** Where a caller is: counted in the load; with the lock; queued, still with it; its write failed;
      its write done; waiting for a result; returned. */
  datatype Phase = Joined | Locked | Queued | Failing | Wrote | Waits | Back(result: Result)

  datatype Reader =
    | Selecting
    | Reading(call: CallId) | Read(call: CallId, answer: CallId) | Handed(call: CallId)
    | ReadFailed(call: CallId) | Failing1(call: CallId)
    | Draining | Locking | DrainingLocked | Dead

  datatype Lock = Free | ByCall(call: CallId) | ByReader

  /** queue is the channel; done holds the result put in each call's channel. order, sent and frames are
      the calls queued, the commands the server got and the answers it gave, all so far; taken of the
      answers are read. closed: the connection is closed, so no more commands go out. */
  datatype State = State(
    calls: map<CallId, Phase>, lock: Lock, queue: seq<CallId>, order: seq<CallId>, sent: seq<CallId>,
      frames: seq<CallId>,
    taken: nat, reader: Reader, done: map<CallId, Result>, broken: bool, closed: bool, load: int)
  {
    predicate Is(c: CallId, ph: Phase) { c in calls && calls[c] == ph }

    function Set(c: CallId, ph: Phase): State { this.(calls := calls[c := ph]) }

    function Put(c: CallId, r: Result): State { this.(done := done[c := r]) }
  }

  datatype CallAct =
    | Join | Acquire | Enqueue | QuitBroken | QuitCancelled | Write | WriteFails(delivered: bool) | ShutAfterWrite
    | Unlock | Receive | SeeDead | GiveUp

  datatype WireAct = Break | CloseConn | Serve

  datatype ReadAct =
    | Take | SeeBroken | ReadFrame | ReadError | Shut | Deliver | Finish(last: bool) | Fail
    | DrainOne | DrainEnd | ReaderLock | DrainLockedOne | DrainLockedEnd

  datatype Act = ByCaller(c: CallId, call: CallAct) | OnWire(wire: WireAct) | ByTheReader(read: ReadAct)

  /** What caller c can do, room being the queue's capacity. */
  predicate CanCall(s: State, room: nat, c: CallId, a: CallAct) {
    match a
    case Join => c !in s.calls
    case Acquire => s.Is(c, Joined) && s.lock.Free?
    case Enqueue => s.Is(c, Locked) && |s.queue| < room
    case QuitBroken => s.Is(c, Locked) && s.broken
    case QuitCancelled => s.Is(c, Locked)
    case Write => s.Is(c, Queued) && !s.closed
    case WriteFails(_) => s.Is(c, Queued)
    case ShutAfterWrite => s.Is(c, Failing)
    case Unlock => s.Is(c, Wrote)
    case Receive => s.Is(c, Waits) && c in s.done
    case SeeDead => s.Is(c, Waits) && s.reader.Dead?
    case GiveUp => s.Is(c, Waits)
  }

  function AfterCall(s: State, room: nat, c: CallId, a: CallAct): State
    requires CanCall(s, room, c, a)
  {
    match a
    case Join => s.Set(c, Joined).(load := s.load + 1)
    case Acquire => s.Set(c, Locked).(lock := ByCall(c))
    case Enqueue => s.Set(c, Queued).(queue := s.queue + [c], order := s.order + [c])
    case QuitBroken => s.Set(c, Back(Failed)).(lock := Free, load := s.load - 1)
    case QuitCancelled => s.Set(c, Back(Cancelled)).(lock := Free, load := s.load - 1)
    case Write => s.Set(c, Wrote).(sent := s.sent + [c])
    case WriteFails(delivered) => s.Set(c, Failing).(sent := if delivered && !s.closed then s.sent + [c] else s.sent)
    case ShutAfterWrite => s.Set(c, Wrote).(broken := true, closed := true)
    case Unlock => s.Set(c, Waits).(lock := Free)
    case Receive => s.Set(c, Back(s.done[c]))
    case SeeDead => s.Set(c, Back(if c in s.done then s.done[c] else Failed))
    case GiveUp => s.Set(c, Back(Cancelled))
  }

  /** The pipe breaks, its connection closes, the server answers its next command. */
  predicate CanWire(s: State, a: WireAct) {
    match a
    case Break => true
    case CloseConn => s.broken
    case Serve => |s.frames| < |s.sent|
  }

  function AfterWire(s: State, a: WireAct): State
    requires CanWire(s, a)
  {
    match a
    case Break => s.(broken := true)
    case CloseConn => s.(closed := true)
    case Serve => s.(frames := s.frames + [s.sent[|s.frames|]])
  }

  predicate CanRead(s: State, a: ReadAct) {
    match a
    case Take => s.reader.Selecting? && s.queue != []
    case SeeBroken => s.reader.Selecting? && s.broken
    case ReadFrame => s.reader.Reading? && s.taken < |s.frames|
    case ReadError => s.reader.Reading?
    case Shut => s.reader.ReadFailed?
    case Deliver => s.reader.Read?
    case Finish(_) => s.reader.Handed?
    case Fail => s.reader.Failing1?
    case DrainOne => s.reader.Draining? && s.queue != []
    case DrainEnd => s.reader.Draining? && s.queue == []
    case ReaderLock => s.reader.Locking? && s.lock.Free?
    case DrainLockedOne => s.reader.DrainingLocked? && s.queue != []
    case DrainLockedEnd => s.reader.DrainingLocked? && s.queue == []
  }

  /** Finish is finished: when it leaves a retired pipe without calls it shuts the pipe. */
  function AfterRead(s: State, a: ReadAct): State
    requires CanRead(s, a)
  {
    match a
    case Take => s.(reader := Reading(s.queue[0]), queue := s.queue[1..])
    case SeeBroken => s.(reader := Draining)
    case ReadFrame => s.(reader := Read(s.reader.call, s.frames[s.taken]), taken := s.taken + 1)
    case ReadError => s.(reader := ReadFailed(s.reader.call), load := s.load - 1)
    case Shut => s.(reader := Failing1(s.reader.call), broken := true, closed := true)
    case Deliver => s.Put(s.reader.call, Answer(s.reader.answer)).(reader := Handed(s.reader.call))
    case Finish(last) => s.(reader := Selecting, load := s.load - 1, broken := s.broken || last)
    case Fail => s.Put(s.reader.call, Failed).(reader := Draining)
    case DrainOne => s.Put(s.queue[0], Failed).(queue := s.queue[1..], load := s.load - 1)
    case DrainEnd => s.(reader := Locking)
    case ReaderLock => s.(reader := DrainingLocked, lock := ByReader)
    case DrainLockedOne => s.Put(s.queue[0], Failed).(queue := s.queue[1..], load := s.load - 1)
    case DrainLockedEnd => s.(reader := Dead, lock := Free)
  }

  predicate Can(s: State, room: nat, a: Act) {
    match a
    case ByCaller(c, x) => CanCall(s, room, c, x)
    case OnWire(x) => CanWire(s, x)
    case ByTheReader(x) => CanRead(s, x)
  }

  function After(s: State, room: nat, a: Act): State
    requires Can(s, room, a)
  {
    match a
    case ByCaller(c, x) => AfterCall(s, room, c, x)
    case OnWire(x) => AfterWire(s, x)
    case ByTheReader(x) => AfterRead(s, x)
  }

  function Init(): State { State(map[], Free, [], [], [], [], 0, Selecting, map[], false, false, 0) }

  // ---- the invariant ----

  /** The call the reader has taken and not given a result. */
  function Current(r: Reader): Option<CallId> {
    match r
    case Reading(c) => Some(c)
    case Read(c, _) => Some(c)
    case ReadFailed(c) => Some(c)
    case Failing1(c) => Some(c)
    case _ => None
  }

  /** How many calls the reader has taken out of the queue. */
  function Popped(s: State): nat { if |s.queue| <= |s.order| then |s.order| - |s.queue| else 0 }

  predicate Holding(ph: Phase) { ph.Locked? || ph.Queued? || ph.Failing? || ph.Wrote? }

  predicate Enqueued(ph: Phase) { ph.Queued? || ph.Failing? || ph.Wrote? || ph.Waits? }

  predicate Distinct(q: seq<CallId>) { forall i, j :: 0 <= i < j < |q| ==> q[i] != q[j] }

  /** What holds of a call: the lock is its own from taking it to releasing it; it is queued once, the
      last before its command is written; and an answer it returns is its own. */
  predicate CallOk(s: State, c: CallId) {
    && (c in s.order ==> c in s.calls)
    && (c in s.calls ==>
          && (Holding(s.calls[c]) ==> s.lock == ByCall(c))
          && (s.calls[c].Joined? || s.calls[c].Locked? ==> c !in s.order)
          && (Enqueued(s.calls[c]) ==> c in s.order)
          && (s.calls[c].Queued? ==> s.order[|s.order| - 1] == c && c !in s.sent)
          && (s.calls[c].Back? && s.calls[c].result.Answer? ==> s.calls[c].result.of_ == c))
  }

  predicate LockOk(s: State) {
    && (s.lock.ByCall? ==> s.lock.call in s.calls && Holding(s.calls[s.lock.call]))
    && (s.lock.ByReader? <==> s.reader.DrainingLocked?)
  }

  /** Calls are queued once each, and the queue is the end of the order they were queued in. */
  ghost predicate QueueOk(s: State) { Distinct(s.order) && |s.queue| <= |s.order| && s.queue == s.order[Popped(s)..] }

  /** Commands go out in queue order, none after one that failed; answers come in command order. */
  predicate WireOk(s: State) {
    && s.sent <= s.order && s.frames <= s.sent && s.taken <= |s.frames|
    && (s.closed ==> s.broken)
    && (!s.closed && s.sent != s.order ==>
          s.lock.ByCall? && s.order == s.sent + [s.lock.call] &&
            (s.Is(s.lock.call, Queued) || s.Is(s.lock.call, Failing)))
  }

  /** The reader has read one answer for each call it took, but for the one it is on. */
  predicate ReaderOk(s: State) {
    match s.reader
    case Selecting => Popped(s) == s.taken
    case Reading(c) => Popped(s) == s.taken + 1 && c == s.order[s.taken]
    case Read(c, x) => Popped(s) == s.taken && s.taken > 0 && c == s.order[s.taken - 1] && x == c
    case Handed(c) => Popped(s) == s.taken && s.taken > 0 && c == s.order[s.taken - 1]
    case ReadFailed(c) => Popped(s) > 0 && c == s.order[Popped(s) - 1]
    case Failing1(c) => Popped(s) > 0 && c == s.order[Popped(s) - 1] && s.broken
    case _ => s.broken
  }

  /** c has been taken out of the queue. */
  predicate Out(s: State, c: CallId) { c in s.order[..Popped(s)] }

  /** A call has a result when the reader is past it, and an answer is its own. */
  predicate DoneOk(s: State, c: CallId) {
    && (c in s.done <==> Out(s, c) && Current(s.reader) != Some(c))
    && (c in s.done && s.done[c].Answer? ==> s.done[c].of_ == c)
  }

  ghost predicate Inv(s: State) {
    (forall c :: CallOk(s, c)) && LockOk(s) && QueueOk(s) && WireOk(s) && ReaderOk(s) && (forall c :: DoneOk(s, c))
  }

  // ---- every step keeps it ----

  lemma CallCallOkStart(s: State, room: nat, c: CallId, a: CallAct, x: CallId)
    requires a.Join? || a.Acquire? || a.QuitBroken? || a.QuitCancelled?
    requires CanCall(s, room, c, a) && CallOk(s, x) && CallOk(s, c)
    ensures CallOk(AfterCall(s, room, c, a), x)
  {
  }

  lemma CallCallOkWrite(s: State, room: nat, c: CallId, a: CallAct, x: CallId)
    requires a.Write? || a.WriteFails? || a.ShutAfterWrite? || a.Unlock?
    requires CanCall(s, room, c, a) && CallOk(s, x) && CallOk(s, c)
    ensures CallOk(AfterCall(s, room, c, a), x)
  {
  }

  lemma CallCallOkReturn(s: State, room: nat, c: CallId, a: CallAct, x: CallId)
    requires a.Receive? || a.SeeDead? || a.GiveUp?
    requires CanCall(s, room, c, a) && CallOk(s, x) && CallOk(s, c) && DoneOk(s, x)
    ensures CallOk(AfterCall(s, room, c, a), x)
  {
  }

  lemma CallCallOk(s: State, room: nat, c: CallId, a: CallAct, x: CallId)
    requires CanCall(s, room, c, a) && CallOk(s, x) && CallOk(s, c) && DoneOk(s, x) && !a.Enqueue?
    ensures CallOk(AfterCall(s, room, c, a), x)
  {
    if a.Join? || a.Acquire? || a.QuitBroken? || a.QuitCancelled? {
      CallCallOkStart(s, room, c, a, x);
    } else if a.Write? || a.WriteFails? || a.ShutAfterWrite? || a.Unlock? {
      CallCallOkWrite(s, room, c, a, x);
    } else {
      CallCallOkReturn(s, room, c, a, x);
    }
  }

  lemma EnqueueOk(s: State, room: nat, c: CallId, x: CallId)
    requires CanCall(s, room, c, Enqueue) && CallOk(s, x) && CallOk(s, c) && s.sent <= s.order
    ensures CallOk(AfterCall(s, room, c, Enqueue), x)
  {
    assert s.sent == s.order[..|s.sent|];
  }

  lemma CallLock(s: State, room: nat, c: CallId, a: CallAct)
    requires CanCall(s, room, c, a) && CallOk(s, c) && LockOk(s)
    ensures LockOk(AfterCall(s, room, c, a))
  {
  }

  /** The reader's side is the same. */
  predicate SameQueue(s: State, s': State) {
    && s'.queue == s.queue && s'.order == s.order && s'.taken == s.taken && s'.reader == s.reader
    && s'.done == s.done && (s.broken ==> s'.broken)
  }

  lemma CallSame(s: State, room: nat, c: CallId, a: CallAct)
    requires CanCall(s, room, c, a) && !a.Enqueue?
    ensures SameQueue(s, AfterCall(s, room, c, a))
  {
  }

  lemma SameKept(s: State, s': State)
    requires QueueOk(s) && ReaderOk(s) && SameQueue(s, s')
    ensures QueueOk(s') && ReaderOk(s') && forall c :: DoneOk(s, c) ==> DoneOk(s', c)
  {
  }

  lemma EnqueueQueue(s: State, c: CallId)
    requires QueueOk(s) && ReaderOk(s) && c !in s.order
    ensures var s' := s.Set(c, Queued).(queue := s.queue + [c], order := s.order + [c]);
            QueueOk(s') && ReaderOk(s') && forall x :: DoneOk(s, x) ==> DoneOk(s', x)
  {
    assert (s.order + [c])[..Popped(s)] == s.order[..Popped(s)];
    assert (s.order + [c])[Popped(s)..] == s.order[Popped(s)..] + [c];
  }

  lemma CallWire(s: State, room: nat, c: CallId, a: CallAct)
    requires CanCall(s, room, c, a) && CallOk(s, c) && LockOk(s) && WireOk(s) && !a.Enqueue? && !a.Write?
    ensures WireOk(AfterCall(s, room, c, a))
  {
  }

  lemma WriteWire(s: State, room: nat, c: CallId, a: CallAct)
    requires CanCall(s, room, c, a) && CallOk(s, c) && LockOk(s) && WireOk(s) && (a.Enqueue? || a.Write?)
    ensures WireOk(AfterCall(s, room, c, a))
  {
  }

  lemma WireWire(s: State, a: WireAct)
    requires CanWire(s, a) && WireOk(s)
    ensures WireOk(AfterWire(s, a)) && SameQueue(s, AfterWire(s, a))
  {
    if a.Serve? { assert s.sent[..|s.frames| + 1] == s.frames + [s.sent[|s.frames|]]; }
  }

  lemma ReadCallOk(s: State, a: ReadAct, x: CallId)
    requires CanRead(s, a) && CallOk(s, x) && LockOk(s)
    ensures CallOk(AfterRead(s, a), x)
  {
  }

  lemma ReadLock(s: State, a: ReadAct)
    requires CanRead(s, a) && LockOk(s)
    ensures LockOk(AfterRead(s, a))
  {
  }

  lemma ReadQueue(s: State, a: ReadAct)
    requires CanRead(s, a) && QueueOk(s)
    ensures QueueOk(AfterRead(s, a))
  {
  }

  lemma ReadWire(s: State, a: ReadAct)
    requires CanRead(s, a) && WireOk(s) && LockOk(s)
    ensures WireOk(AfterRead(s, a))
  {
  }

  lemma ReadReader(s: State, a: ReadAct)
    requires CanRead(s, a) && ReaderOk(s) && QueueOk(s) && WireOk(s)
    ensures ReaderOk(AfterRead(s, a))
  {
    if a.ReadFrame? {
      assert s.frames[s.taken] == s.sent[s.taken] == s.order[s.taken];
    } else if a.Take? || a.DrainOne? || a.DrainLockedOne? {
      TakesReader(s, a);
    } else {
      StaysReader(s, a);
    }
  }

  lemma TakesReader(s: State, a: ReadAct)
    requires CanRead(s, a) && ReaderOk(s) && QueueOk(s) && (a.Take? || a.DrainOne? || a.DrainLockedOne?)
    ensures ReaderOk(AfterRead(s, a))
  {
  }

  lemma StaysReader(s: State, a: ReadAct)
    requires CanRead(s, a) && ReaderOk(s) && QueueOk(s) && !a.ReadFrame? && !a.Take? && !a.DrainOne?
    requires !a.DrainLockedOne?
    ensures ReaderOk(AfterRead(s, a))
  {
  }

  lemma NextOut(q: seq<CallId>, n: nat, c: CallId)
    requires n < |q| && Distinct(q)
    ensures c in q[..n + 1] <==> c in q[..n] || c == q[n]
    ensures q[n] !in q[..n]
  {
    assert q[..n + 1] == q[..n] + [q[n]];
  }

  /** A step that puts no result in a call's channel and takes none out of the queue. */
  lemma StillDone(s: State, a: ReadAct, c: CallId)
    requires CanRead(s, a) && DoneOk(s, c)
    requires !a.Take? && !a.DrainOne? && !a.DrainLockedOne? && !a.Deliver? && !a.Fail?
    ensures DoneOk(AfterRead(s, a), c)
  {
  }

  lemma PutDone(s: State, a: ReadAct, c: CallId)
    requires CanRead(s, a) && DoneOk(s, c) && QueueOk(s) && ReaderOk(s) && (a.Deliver? || a.Fail?)
    ensures DoneOk(AfterRead(s, a), c)
  {
    NextOut(s.order, Popped(s) - 1, c);
    if a.Deliver? { DeliverDone(s, c); } else { FailDone(s, c); }
  }

  lemma DeliverDone(s: State, c: CallId)
    requires CanRead(s, Deliver) && DoneOk(s, c) && QueueOk(s) && ReaderOk(s)
    ensures DoneOk(AfterRead(s, Deliver), c)
  {
  }

  lemma FailDone(s: State, c: CallId)
    requires CanRead(s, Fail) && DoneOk(s, c) && QueueOk(s) && ReaderOk(s)
    ensures DoneOk(AfterRead(s, Fail), c)
  {
  }

  lemma TakenDone(s: State, a: ReadAct, c: CallId)
    requires CanRead(s, a) && DoneOk(s, c) && QueueOk(s) && ReaderOk(s) && (a.Take? || a.DrainOne? || a.DrainLockedOne?)
    ensures DoneOk(AfterRead(s, a), c)
  {
    assert s.queue[0] == s.order[Popped(s)];
    NextOut(s.order, Popped(s), c);
  }

  lemma ReadDone(s: State, a: ReadAct, c: CallId)
    requires CanRead(s, a) && DoneOk(s, c) && QueueOk(s) && ReaderOk(s)
    ensures DoneOk(AfterRead(s, a), c)
  {
    if a.Deliver? || a.Fail? {
      PutDone(s, a, c);
    } else if a.Take? || a.DrainOne? || a.DrainLockedOne? {
      TakenDone(s, a, c);
    } else {
      StillDone(s, a, c);
    }
  }

  lemma CallKept(s: State, room: nat, c: CallId, a: CallAct)
    requires Inv(s) && CanCall(s, room, c, a)
    ensures Inv(AfterCall(s, room, c, a))
  {
    var s' := AfterCall(s, room, c, a);
    assert CallOk(s, c);
    CallLock(s, room, c, a);
    forall x ensures CallOk(s', x) {
      assert CallOk(s, x) && DoneOk(s, x);
      if a.Enqueue? { EnqueueOk(s, room, c, x); } else { CallCallOk(s, room, c, a, x); }
    }
    if a.Enqueue? || a.Write? { WriteWire(s, room, c, a); } else { CallWire(s, room, c, a); }
    if a.Enqueue? {
      EnqueueQueue(s, c);
    } else {
      CallSame(s, room, c, a);
      SameKept(s, s');
    }
    forall x ensures DoneOk(s', x) { assert DoneOk(s, x); }
  }

  lemma WireCallOk(s: State, a: WireAct, x: CallId)
    requires CanWire(s, a) && CallOk(s, x)
    ensures CallOk(AfterWire(s, a), x)
  {
  }

  lemma WireKept(s: State, a: WireAct)
    requires Inv(s) && CanWire(s, a)
    ensures Inv(AfterWire(s, a))
  {
    var s' := AfterWire(s, a);
    WireWire(s, a);
    SameKept(s, s');
    forall x ensures CallOk(s', x) { WireCallOk(s, a, x); }
    forall x ensures DoneOk(s', x) { assert DoneOk(s, x); }
  }

  lemma ReadKept(s: State, a: ReadAct)
    requires Inv(s) && CanRead(s, a)
    ensures Inv(AfterRead(s, a))
  {
    var s' := AfterRead(s, a);
    ReadLock(s, a);
    ReadQueue(s, a);
    ReadWire(s, a);
    ReadReader(s, a);
    forall x ensures CallOk(s', x) { ReadCallOk(s, a, x); }
    forall x ensures DoneOk(s', x) { ReadDone(s, a, x); }
  }

  lemma InvKept(s: State, room: nat, a: Act)
    requires Inv(s) && Can(s, room, a)
    ensures Inv(After(s, room, a))
  {
    match a
    case ByCaller(c, x) => CallKept(s, room, c, x);
    case OnWire(x) => WireKept(s, x);
    case ByTheReader(x) => ReadKept(s, x);
  }
}
