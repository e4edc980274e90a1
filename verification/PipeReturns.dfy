/** What calls on a pipe return (resolve/irrd/pipeline.go:390-473): what was delivered to them, an error only of a
    broken pipe, and on a healthy pipe, in the end, their answer. */
module PipeReturns {
  import opened Prefixes
  import opened PipeAnswers
  import opened PipeRuns

  /** A result delivered is an answer, or the error of a broken pipe. */
  predicate DeliveredOk(s: State, c: CallId) { c in s.done ==> s.done[c].Answer? || (s.done[c].Failed? && s.broken) }

  /** What c returned is what was delivered to it. With nothing delivered it is the error of a broken pipe, and
      nothing will be: c was never queued, or the reader is gone. */
  predicate ReturnedOk(s: State, c: CallId) {
    c in s.calls && s.calls[c].Back? ==>
      match s.calls[c].result
      case Cancelled => true
      case Answer(_) => c in s.done && s.done[c] == s.calls[c].result
      case Failed => s.broken && if c in s.done then s.done[c].Failed? else c !in s.order || s.reader.Dead?
  }

  ghost predicate ReturnsOk(s: State) { forall c :: DeliveredOk(s, c) && ReturnedOk(s, c) }

  lemma {:induction false} CallReturns(s: State, room: nat, d: CallId, a: CallAct, c: CallId)
    requires CanCall(s, room, d, a) && CallOk(s, d) && DoneOk(s, d) && ReaderOk(s)
    requires DeliveredOk(s, c) && ReturnedOk(s, c) && DeliveredOk(s, d)
    ensures DeliveredOk(AfterCall(s, room, d, a), c) && ReturnedOk(AfterCall(s, room, d, a), c)
  {
    if a.QuitBroken? { assert d !in s.order; }
  }

  lemma {:induction false} WireReturns(s: State, a: WireAct, c: CallId)
    requires CanWire(s, a) && DeliveredOk(s, c) && ReturnedOk(s, c)
    ensures DeliveredOk(AfterWire(s, a), c) && ReturnedOk(AfterWire(s, a), c)
  {
  }

  /** The reader delivers to calls that have not returned anything for good. */
  lemma {:induction false} ReadReturns(s: State, a: ReadAct, c: CallId)
    requires CanRead(s, a) && QueueOk(s) && ReaderOk(s) && DoneOk(s, c) && DeliveredOk(s, c) && ReturnedOk(s, c)
    ensures DeliveredOk(AfterRead(s, a), c) && ReturnedOk(AfterRead(s, a), c)
  {
    var to := Recipient(s, a);
    if to == Some(c) {
      RecipientQueued(s, a);
      GivesResult(s, a);
    } else {
      GivesOthers(s, a, c);
    }
  }

  lemma {:induction false} RecipientQueued(s: State, a: ReadAct)
    requires CanRead(s, a) && QueueOk(s) && ReaderOk(s) && Recipient(s, a).Some?
    ensures var c := Recipient(s, a).value; c in s.order && (DoneOk(s, c) ==> c !in s.done)
  {
    var c := Recipient(s, a).value;
    if a.DrainOne? || a.DrainLockedOne? { QueueOut(s, c); }
  }

  lemma {:induction false} GivesResult(s: State, a: ReadAct)
    requires CanRead(s, a) && ReaderOk(s) && Recipient(s, a).Some?
    ensures var s', c := AfterRead(s, a), Recipient(s, a).value;
            && s'.calls == s.calls && s'.order == s.order && c in s'.done && (s.broken ==> s'.broken) && !s.reader.Dead?
            && (s'.done[c].Answer? || (s'.done[c].Failed? && s'.broken))
  {
  }

  lemma {:induction false} GivesOthers(s: State, a: ReadAct, c: CallId)
    requires CanRead(s, a) && Recipient(s, a) != Some(c)
    ensures var s' := AfterRead(s, a);
            && s'.calls == s.calls && s'.order == s.order && (s.broken ==> s'.broken) && !s.reader.Dead?
            && (c in s'.done <==> c in s.done) && (c in s.done ==> s'.done[c] == s.done[c])
  {
  }

  lemma {:induction false} ReturnsKept(s: State, room: nat, a: Act)
    requires Inv(s) && ReturnsOk(s) && Can(s, room, a)
    ensures ReturnsOk(After(s, room, a))
  {
    forall c ensures DeliveredOk(After(s, room, a), c) && ReturnedOk(After(s, room, a), c) {
      match a
      case ByCaller(d, x) =>
        assert CallOk(s, d) && DoneOk(s, d) && DeliveredOk(s, d);
        CallReturns(s, room, d, x, c);
      case OnWire(x) => WireReturns(s, x, c);
      case ByTheReader(x) =>
        assert DoneOk(s, c);
        ReadReturns(s, x, c);
    }
  }

  lemma {:induction false} RunReturns(s: State, room: nat, acts: seq<Act>)
    requires Inv(s) && ReturnsOk(s) && Play(s, room, acts).Some?
    ensures Inv(Play(s, room, acts).value) && ReturnsOk(Play(s, room, acts).value)
    decreases |acts|
  {
    if acts != [] {
      InvKept(s, room, acts[0]);
      ReturnsKept(s, room, acts[0]);
      RunReturns(After(s, room, acts[0]), room, acts[1..]);
    }
  }

  /** Over every run: a call that did not give up has returned what was delivered to it, its own answer or an
      error, or an error with nothing delivered; and it has an error only of a pipe that is broken. */
  lemma {:induction false} EveryReturn(room: nat, acts: seq<Act>, c: CallId)
    requires Play(Init(), room, acts).Some?
    ensures var s := Play(Init(), room, acts).value;
            c in s.calls && s.calls[c].Back? && s.calls[c].result != Cancelled ==>
              && (c in s.done ==> s.calls[c].result == s.done[c])
              && (c !in s.done ==> s.calls[c].result == Failed)
              && (s.calls[c].result == Failed ==> s.broken)
    ensures var s := Play(Init(), room, acts).value;
            c in s.done ==> s.done[c] == Answer(c) || (s.done[c] == Failed && s.broken)
  {
    InitSafe();
    RunReturns(Init(), room, acts);
    var s := Play(Init(), room, acts).value;
    assert ReturnedOk(s, c) && DeliveredOk(s, c);
    OwnAnswer(room, acts, c);
  }

  /** A call returns that its context ended only by giving up. */
  lemma {:induction false} CancelledGaveUp(s: State, room: nat, a: Act, c: CallId)
    requires ReturnsOk(s) && Can(s, room, a) && !s.Is(c, Back(Cancelled)) && After(s, room, a).Is(c, Back(Cancelled))
    ensures a == ByCaller(c, GiveUp) || a == ByCaller(c, QuitCancelled)
  {
    assert DeliveredOk(s, c);
    match a
    case ByCaller(d, x) => if c == d { OwnCancel(s, room, c, x); } else { CallReturnsOnce(s, room, d, x, c); }
    case OnWire(_) =>
    case ByTheReader(x) => ReaderLeavesCalls(s, x);
  }

  lemma {:induction false} OwnCancel(s: State, room: nat, c: CallId, a: CallAct)
    requires CanCall(s, room, c, a) && DeliveredOk(s, c) && AfterCall(s, room, c, a).Is(c, Back(Cancelled))
    ensures a == GiveUp || a == QuitCancelled
  {
  }

  // ---- a healthy pipe ----

  /** The pipe is not broken, and no read or write has failed. */
  ghost predicate Healthy(s: State) { !s.broken && !s.reader.ReadFailed? && forall c :: !s.Is(c, Failing) }

  /** How far a call is from having returned, and the one it waits for from releasing the lock. */
  function Steps(ph: Phase): nat {
    match ph
    case Joined => 6
    case Locked => 5
    case Queued => 4
    case Failing => 3
    case Wrote => 2
    case Waits => 1
    case Back(_) => 0
  }

  function CallerRank(s: State, c: CallId): nat { if c in s.calls then Steps(s.calls[c]) else 7 }

  function LockRank(s: State): nat { if s.lock.ByCall? then CallerRank(s, s.lock.call) else 0 }

  /** How far the reader is in dealing with a call. */
  function Stage(r: Reader): nat {
    match r
    case Read(_, _) => 3
    case Handed(_) => 2
    case Selecting => 1
    case _ => 0
  }

  /** Steps left of c, of the one with the lock, and of the reader and the server. */
  predicate Nearer(s: State, s': State, c: CallId) {
    CallerRank(s', c) < CallerRank(s, c) || (CallerRank(s', c) == CallerRank(s, c) && LockNearer(s, s'))
  }

  predicate LockNearer(s: State, s': State) {
    LockRank(s') < LockRank(s) || (LockRank(s') == LockRank(s) && ReadNearer(s, s'))
  }

  predicate ReadNearer(s: State, s': State) {
    || |s'.order| - s'.taken < |s.order| - s.taken
    || (s'.order == s.order && s'.taken == s.taken && Stage(s'.reader) < Stage(s.reader))
    || (s'.order == s.order && s'.taken == s.taken && s'.reader == s.reader && s'.sent == s.sent &&
        |s'.frames| > |s.frames|)
  }

  // ---- the reader and the server ----

  /** A call that waits on a healthy pipe has its command sent. */
  lemma {:induction false} WaitsSent(s: State, c: CallId)
    requires CallOk(s, c) && WireOk(s) && Healthy(s) && s.Is(c, Waits)
    ensures c in s.sent
  {
    assert c in s.order;
    if s.sent != s.order { assert s.order == s.sent + [s.lock.call]; }
  }

  /** What the reader or the server does next. */
  function NextAct(s: State): Act {
    match s.reader
    case Read(_, _) => ByTheReader(Deliver)
    case Handed(_) => ByTheReader(Finish(false))
    case Selecting => ByTheReader(Take)
    case _ => if s.taken < |s.frames| then ByTheReader(ReadFrame) else OnWire(Serve)
  }

  /** The reader and the server can go on while there is a call to take, or one taken whose command was sent. */
  lemma {:induction false} ReadOn(s: State, room: nat)
    requires ReaderOk(s) && QueueOk(s) && WireOk(s) && Healthy(s)
    requires (s.reader.Selecting? ==> s.queue != []) && (s.reader.Reading? ==> s.taken < |s.sent|)
    ensures Can(s, room, NextAct(s))
    ensures var s' := After(s, room, NextAct(s));
            !s'.broken && !s'.reader.ReadFailed? && s'.calls == s.calls && s'.lock == s.lock && ReadNearer(s, s')
  {
  }

  lemma {:induction false} ReadHealthy(s: State, s': State)
    requires Healthy(s) && !s'.broken && !s'.reader.ReadFailed? && s'.calls == s.calls
    ensures Healthy(s')
  {
    forall c ensures !s'.Is(c, Failing) { assert !s.Is(c, Failing); }
  }

  lemma {:induction false} StillToCome(s: State, c: CallId)
    requires QueueOk(s) && ReaderOk(s) && DoneOk(s, c) && WireOk(s) && c in s.sent && c !in s.done
    ensures s.reader.Selecting? ==> s.queue != []
    ensures s.reader.Reading? ==> s.taken < |s.sent|
  {
    var m :| 0 <= m < |s.sent| && s.sent[m] == c;
    assert s.order[m] == c;
    assert m < Popped(s) ==> s.order[..Popped(s)][m] == s.order[m];
  }

  // ---- a call ----

  /** While others have the lock, the one that has it goes on. */
  lemma {:induction false} HolderOn(s: State, room: nat, c: CallId) returns (a: Act)
    requires LockOk(s) && s.lock.ByCall? && s.lock.call != c && CallOk(s, s.lock.call) && WireOk(s) && Healthy(s)
    requires s.Is(c, Joined)
    ensures Can(s, room, a)
    ensures Nearer(s, After(s, room, a), c) && Healthy(After(s, room, a)) && After(s, room, a).Is(c, Joined)
  {
    var d := s.lock.call;
    assert !s.Is(d, Failing);
    var x := match s.calls[d]
      case Locked => QuitCancelled
      case Queued => Write
      case _ => Unlock;
    a := ByCaller(d, x);
    CallReturnsOnce(s, room, d, x, c);
    StaysHealthy(s, room, d, x);
  }

  lemma {:induction false} StaysHealthy(s: State, room: nat, c: CallId, a: CallAct)
    requires CanCall(s, room, c, a) && Healthy(s) && !a.WriteFails? && !a.ShutAfterWrite?
    ensures Healthy(AfterCall(s, room, c, a))
  {
    var s' := AfterCall(s, room, c, a);
    assert !s'.broken && s'.reader == s.reader;
    forall d ensures !s'.Is(d, Failing) {
      assert !s.Is(d, Failing);
      if d in s.calls && d != c { CallReturnsOnce(s, room, c, a, d); }
    }
  }

  /** A call's own next step, when nothing keeps it. */
  lemma {:induction false} CallerOn(s: State, room: nat, c: CallId) returns (a: Act)
    requires CallOk(s, c) && WireOk(s) && Healthy(s) && c in s.calls && !s.calls[c].Back? && !s.calls[c].Waits?
    requires s.Is(c, Joined) ==> s.lock.Free?
    requires s.Is(c, Locked) ==> |s.queue| < room
    ensures Can(s, room, a)
    ensures Nearer(s, After(s, room, a), c) && Healthy(After(s, room, a))
    ensures c in After(s, room, a).calls && !After(s, room, a).calls[c].Back?
  {
    assert !s.Is(c, Failing);
    var x := match s.calls[c]
      case Joined => Acquire
      case Locked => Enqueue
      case Queued => Write
      case _ => Unlock;
    a := ByCaller(c, x);
    StaysHealthy(s, room, c, x);
  }

  /** On a healthy pipe some step always brings a call that has joined nearer to its answer. */
  lemma {:induction false} AnswerOn(s: State, room: nat, c: CallId) returns (a: Act)
    requires Inv(s) && Healthy(s) && room > 0 && c in s.calls && !s.calls[c].Back? && (s.Is(c, Waits) ==> c !in s.done)
    ensures Can(s, room, a)
    ensures Nearer(s, After(s, room, a), c) && Healthy(After(s, room, a))
    ensures c in After(s, room, a).calls && !After(s, room, a).calls[c].Back?
  {
    assert CallOk(s, c) && DoneOk(s, c) && !s.reader.DrainingLocked?;
    if s.Is(c, Joined) && !s.lock.Free? {
      assert s.lock.ByCall? && CallOk(s, s.lock.call);
      a := HolderOn(s, room, c);
    } else if s.Is(c, Waits) {
      WaitsSent(s, c);
      StillToCome(s, c);
      a := NextAct(s);
      ReadOn(s, room);
      ReadHealthy(s, After(s, room, a));
    } else if s.Is(c, Locked) && |s.queue| >= room {
      RoomToCome(s, c);
      a := NextAct(s);
      ReadOn(s, room);
      ReadHealthy(s, After(s, room, a));
    } else {
      a := CallerOn(s, room, c);
    }
  }

  /** While a call with the lock finds the queue full, every command on it was sent. */
  lemma {:induction false} RoomToCome(s: State, c: CallId)
    requires CallOk(s, c) && LockOk(s) && QueueOk(s) && ReaderOk(s) && WireOk(s) && Healthy(s) && s.Is(c, Locked)
    requires s.queue != []
    ensures s.reader.Reading? ==> s.taken < |s.sent|
  {
    assert s.lock == ByCall(c) && s.sent == s.order;
  }

  /** From every reachable state in which the pipe is healthy, each call on it can come to return its answer. */
  lemma {:induction false} CanAnswer(s: State, room: nat, c: CallId) returns (acts: seq<Act>)
    requires Inv(s) && ReturnsOk(s) && Healthy(s) && room > 0 && c in s.calls && !s.calls[c].Back?
    ensures Play(s, room, acts).Some? && Play(s, room, acts).value.Is(c, Back(Answer(c)))
    decreases CallerRank(s, c), LockRank(s), |s.order| - s.taken, Stage(s.reader), |s.sent| - |s.frames|
  {
    if s.Is(c, Waits) && c in s.done {
      assert DeliveredOk(s, c) && DoneOk(s, c);
      acts := [ByCaller(c, Receive)];
      assert Play(After(s, room, acts[0]), room, acts[1..]) == Some(After(s, room, acts[0]));
    } else {
      var a := AnswerOn(s, room, c);
      InvKept(s, room, a);
      ReturnsKept(s, room, a);
      assert Bounded(s) && Bounded(After(s, room, a));
      var rest := CanAnswer(After(s, room, a), room, c);
      acts := [a] + rest;
      assert acts[1..] == rest;
    }
  }

  predicate Bounded(s: State) { s.taken <= |s.frames| <= |s.sent| <= |s.order| }

  /** Every run whose pipe is healthy can go on until a call on it has returned its answer. */
  lemma {:induction false} EveryCallAnswered(room: nat, acts: seq<Act>, c: CallId) returns (more: seq<Act>)
    requires Play(Init(), room, acts).Some? && Healthy(Play(Init(), room, acts).value) && room > 0
    requires var s := Play(Init(), room, acts).value; c in s.calls && !s.calls[c].Back?
    ensures var s := Play(Init(), room, acts).value;
            Play(s, room, more).Some? && Play(s, room, more).value.Is(c, Back(Answer(c)))
  {
    InitSafe();
    RunReturns(Init(), room, acts);
    more := CanAnswer(Play(Init(), room, acts).value, room, c);
  }
}
