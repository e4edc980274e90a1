/** The streaming parser (stream.go:193-507) with no cap hit, no transcoding and no read error: trivia, the
    object in progress, the finished one held back, and the queue. */
module Streamer {
  import opened Prefixes
  import opened Lexer
  import opened Streams
  import opened StreamLines
  import opened StreamObjects

  lemma {:induction false} ConcatSnoc(ls: seq<string>, i: nat, k: nat)
    requires i <= k < |ls|
    ensures Concat(ls[i..k + 1]) == Concat(ls[i..k]) + ls[k]
  {
    assert ls[i..k + 1] == ls[i..k] + [ls[k]];
    ConcatAppend(ls[i..k], [ls[k]]);
    assert [ls[k]][1..] == [] && ls[k] + [] == ls[k];
  }

  lemma {:induction false} ConcatJoin(ls: seq<string>, i: nat, j: nat, k: nat)
    requires i <= j <= k <= |ls|
    ensures Concat(ls[i..j]) + Concat(ls[j..k]) == Concat(ls[i..k])
  {
    assert ls[i..k] == ls[i..j] + ls[j..k];
    ConcatAppend(ls[i..j], ls[j..k]);
  }

  lemma {:induction false} NoConcat(ls: seq<string>, i: nat, j: nat)
    requires Whole(ls) && i <= j <= |ls|
    ensures Concat(ls[i..j]) == [] <==> i == j
  {
    if i < j {
      WholeAt(ls, i);
      assert ls[i..j][0] == ls[i];
    }
  }

  /** A buffer has the lines from the i-th to before the j-th, and where they start. */
  predicate Holds(ls: seq<string>, i: nat, j: nat, text: string, at: Pos) {
    i <= j <= |ls| && text == Concat(ls[i..j]) && (text == [] <==> i == j) && (i < j ==> at == At(ls, i))
  }

  lemma {:induction false} HoldsNone(ls: seq<string>, i: nat, at: Pos)
    requires i <= |ls|
    ensures Holds(ls, i, i, [], at)
  {
    assert ls[i..i] == [];
  }

  lemma {:induction false} HoldsNext(ls: seq<string>, i: nat, j: nat, text: string, at: Pos)
    requires Whole(ls) && Holds(ls, i, j, text, at) && j < |ls|
    ensures Holds(ls, i, j + 1, text + ls[j], if text == [] then At(ls, j) else at)
  {
    ConcatSnoc(ls, i, j);
    NoConcat(ls, i, j + 1);
  }

  /** What holds between lines: the buffers have the lines between the marks; what is finished is cut where
      objects end, the trivia starts no attribute, and the object in progress starts with one and has no blank
      line; the last one finished is held back until the next starts. */
  datatype Aspect = Buffers | Marks | Waiting

  class Streamer {
    ghost const ls: seq<string>
    ghost const kinds: seq<LineKind>
    var rest: string
    var pos: Pos
    var lead: string
    var leadStart: Pos
    var obj: string
    var objStart: Pos
    var pending: Option<seq<Part>>
    var out: seq<seq<Part>>
    var head: nat
    var stopped: bool
    var finished: bool
    var left: Option<nat>
    var objects: seq<seq<Token>>
    // The finished objects end at ends, the last of them before the a-th line; the trivia is the lines from
    // there to before the b-th, and the object in progress those to before the k-th.
    ghost var ends: Ends
    ghost var a: nat
    ghost var b: nat
    ghost var k: nat

    /** The objects given, queued and held back are the finished ones. */
    ghost predicate Queued()
      reads this`head, this`out, this`objects, this`pending, this`ends
    {
      head <= |out| && Tally(ls, ends, objects, out[head..], pending)
    }

    ghost predicate Keeps(x: Aspect)
      reads this`ends, this`pending, this`a, this`b, this`k, this`lead, this`leadStart, this`obj, this`objStart
    {
      match x
      case Buffers => a <= b <= k <= |ls| && Holds(ls, a, b, lead, leadStart) && Holds(ls, b, k, obj, objStart)
      case Marks => |kinds| == |ls| && Standing(kinds, ends, a, b, k)
      case Waiting => pending.Some? <==> b == k && ends.Then?
    }

    /** The next line is of this kind. */
    ghost predicate Comes(kind: LineKind)
      reads this`k
    {
      k < |kinds| && kinds[k] == kind
    }

    ghost predicate Between()
      reads this`ends, this`pending, this`a, this`b, this`k, this`lead, this`leadStart, this`obj, this`objStart
    {
      forall x :: Keeps(x)
    }

    /** What is read ends before the k-th line. */
    ghost predicate Reading()
      reads this`a, this`k, this`pos, this`rest
    {
      k <= |ls| && pos == At(ls, k) && Lines(rest) == ls[k..] && (a == k ==> k == 0)
    }

    ghost predicate Lined() { Whole(ls) && kinds == Kinds(ls) }

    /** All is finished, or the buffers and the reader are in step. */
    ghost predicate Front()
      reads this`ends, this`finished, this`pending, this`a, this`b, this`k, this`lead, this`leadStart, this`obj,
            this`objStart,
            this`pos, this`rest
    {
      if finished then pending.None? && ends.InOrder() == ObjectEnds(kinds, 0) else Between() && Reading()
    }

    /** How many objects are in memory: queued, held back, in progress. */
    ghost function InHand(): int
      reads this`head, this`out, this`pending, this`obj
    {
      |out| - head + (if pending.Some? then 1 else 0) + (if obj == [] then 0 else 1)
    }

    ghost predicate Valid()
      reads this
    {
      Lined() && Queued() && Front() && InHand() <= 2
    }

    method EmitPending()
      requires Queued()
      modifies this`pending, this`out
      ensures Queued() && pending.None? && InHand() == old(InHand())
    {
      if pending.Some? {
        EmitHeld(ls, ends, objects, out[head..], pending.value);
        out := out + [pending.value];
        assert out[head..] == old(out)[head..] + [pending.value];
        pending := None;
      }
    }

    /** A finished object, the lines up to the e-th, is held back. */
    method Hold(c: seq<Part>, ghost e: nat)
      requires Queued() && pending.None? && TokensOfParts(c) == Tok(ls, ends.Last(), e)
      modifies this`pending, this`ends
      ensures Queued() && pending == Some(c) && ends == Then(old(ends), e) && InHand() == old(InHand()) + 1
    {
      HoldHeld(ls, ends, e, objects, out[head..], c);
      pending := Some(c);
      ends := Then(ends, e);
    }

    /** The object held back is queued, and c takes its place. */
    method HoldNext(c: seq<Part>, ghost e: nat)
      requires Queued() && TokensOfParts(c) == Tok(ls, ends.Last(), e)
      modifies this`pending, this`out, this`ends
      ensures Queued() && pending == Some(c) && ends == Then(old(ends), e) && InHand() == old(InHand()) + 1
    {
      EmitPending();
      Hold(c, e);
    }

    /** takeCurrent: the trivia and the object as parts, as one when the trivia is no longer. */
    method TakeCurrent() returns (c: seq<Part>)
      requires Lined() && Keeps(Buffers) && Keeps(Marks) && obj != []
      modifies this`lead, this`obj
      ensures lead == [] && obj == [] && TokensOfParts(c) == Tok(ls, a, k)
    {
      KindsLength(ls);
      if lead != [] && |lead| <= |obj| && leadStart.byte + |lead| == objStart.byte {
        c := [Part(lead + obj, leadStart)];
        ConcatJoin(ls, a, b, k);
        PartTokens(ls, a, k);
      } else if lead != [] {
        c := [Part(lead, leadStart)] + [Part(obj, objStart)];
        PartTokens(ls, a, b);
        PartTokens(ls, b, k);
        StandOpens(kinds, ends, a, b, k);
        KindAt(ls, b);
        GrowTokens(ls, a, b, k, [Part(lead, leadStart)], Part(obj, objStart));
      } else {
        c := [Part(obj, objStart)];
        PartTokens(ls, b, k);
      }
      lead, obj := [], [];
    }

    method AddLead(raw: string)
      modifies this`lead, this`leadStart
      ensures lead == old(lead) + raw && leadStart == if old(lead) == [] then pos else old(leadStart)
    {
      if lead == [] { leadStart := pos; }
      lead := lead + raw;
    }

    /** The k-th line joins the trivia. */
    method Trivia(raw: string)
      requires Lined() && Between() && b == k < |ls| && raw == ls[k] && pos == At(ls, k) && !Comes(Opens)
      modifies this`lead, this`leadStart, this`b, this`k
      ensures Between() && k == old(k) + 1 == b && a < k
    {
      assert Keeps(Buffers) && Keeps(Marks) && Keeps(Waiting);
      KindsLength(ls);
      StandTrivia(kinds, ends, a, k);
      HoldsNext(ls, a, k, lead, leadStart);
      HoldsNone(ls, k + 1, objStart);
      AddLead(raw);
      b, k := b + 1, k + 1;
    }

    /** The k-th line joins the object in progress, or starts one. */
    method Object(raw: string)
      requires Lined() && Keeps(Buffers) && Keeps(Marks) && k < |ls| && raw == ls[k] && pos == At(ls, k)
      requires !Comes(Empty) && (b == k ==> Comes(Opens)) && pending.None?
      modifies this`obj, this`objStart, this`k
      ensures Between() && k == old(k) + 1 && obj != []
    {
      KindsLength(ls);
      StandObject(kinds, ends, a, b, k);
      HoldsNext(ls, b, k, obj, objStart);
      if obj == [] { objStart := pos; }
      obj := obj + raw;
      k := k + 1;
    }

    /** The object in progress is finished, and held back until the next starts or the input ends. */
    method EndObject()
      requires Lined() && Queued() && Keeps(Buffers) && Keeps(Marks) && obj != [] && (k < |ls| ==> Comes(Empty))
      modifies this`lead, this`obj, this`pending, this`out, this`ends, this`a, this`b
      ensures Queued() && Between() && a == b == k && ends.Then? && InHand() == old(InHand())
    {
      StandCut(kinds, ends, a, b, k);
      var c := TakeCurrent();
      Retire(c);
    }

    /** The buffers' chunk, taken, is held back. */
    method Retire(c: seq<Part>)
      requires Queued() && lead == [] && obj == [] && k <= |ls| == |kinds| && Standing(kinds, Then(ends, k), k, k, k)
      requires TokensOfParts(c) == Tok(ls, ends.Last(), k)
      modifies this`pending, this`out, this`ends, this`a, this`b
      ensures Queued() && Between() && a == b == k && ends.Then? && InHand() == old(InHand()) + 1
    {
      HoldNext(c, k);
      a, b := k, k;
      Restart();
    }

    /** Nothing is buffered. */
    lemma {:induction false} Restart()
      requires lead == [] && obj == [] && a == b == k <= |ls| == |kinds| && Standing(kinds, ends, k, k, k)
      requires pending.Some? <==> ends.Then?
      ensures Between()
    {
      HoldsNone(ls, k, leadStart);
      HoldsNone(ls, k, objStart);
    }

    /** One line of the stream, the next. */
    method Line(raw: string)
      requires Lined() && Queued() && Between() && k < |ls| && raw == ls[k] && pos == At(ls, k)
      modifies this`lead, this`leadStart, this`obj, this`objStart, this`pending, this`out, this`ends, this`a, this`b,
               this`k
      ensures Queued() && Between() && k == old(k) + 1 && a < k && InHand() <= old(InHand()) + 1
    {
      assert Keeps(Marks);
      var text := Text(raw);
      KindsLength(ls);
      KindAt(ls, k);
      if IsBlankLine(text) { BlankLine(raw); } else { TextLine(raw, StartsAttribute(text)); }
    }

    /** A blank line ends the object in progress and is trivia of the next. */
    method BlankLine(raw: string)
      requires Lined() && Queued() && Between() && k < |ls| && raw == ls[k] && pos == At(ls, k) && Comes(Empty)
      modifies this`lead, this`leadStart, this`obj, this`pending, this`out, this`ends, this`a, this`b, this`k
      ensures Queued() && Between() && k == old(k) + 1 && a < k && InHand() == old(InHand())
    {
      EndAny();
      Trivia(raw);
    }

    /** The object in progress, if any, is finished. */
    method EndAny()
      requires Lined() && Queued() && Between() && (k < |ls| ==> Comes(Empty))
      modifies this`lead, this`obj, this`pending, this`out, this`ends, this`a, this`b
      ensures Queued() && Between() && b == k && InHand() == old(InHand())
    {
      assert Keeps(Buffers) && Keeps(Marks);
      if obj != [] { EndObject(); }
    }

    /** Any other line joins the object in progress, starts one, or is trivia. */
    method TextLine(raw: string, attribute: bool)
      requires Lined() && Queued() && Between() && k < |ls| && raw == ls[k] && pos == At(ls, k)
      requires !Comes(Empty) && attribute == Comes(Opens)
      modifies this`lead, this`leadStart, this`obj, this`objStart, this`pending, this`out, this`b, this`k
      ensures Queued() && Between() && k == old(k) + 1 && a < k && InHand() <= old(InHand()) + 1
    {
      assert Keeps(Buffers) && Keeps(Marks) && Keeps(Waiting);
      if obj == [] && !attribute {
        Trivia(raw);
      } else {
        if obj == [] { EmitPending(); }
        Object(raw);
      }
    }

    /** The end of the input: the object in progress is the last, and trivia with none in progress joins the last
        finished one. */
    method Finish()
      requires Lined() && Queued() && Between() && k == |ls|
      modifies this`lead, this`obj, this`pending, this`out, this`ends, this`a, this`b
      ensures Queued() && pending.None? && ends.InOrder() == ObjectEnds(kinds, 0) && InHand() <= Max(1, old(InHand()))
    {
      EndAny();
      assert Keeps(Buffers) && Keeps(Marks);
      StandEnd(kinds, ends, a);
      if lead != [] { FinishLead(); }
      EmitPending();
    }

    /** Trivia left at the end joins the object held back or, with none, is an object of its own. */
    method FinishLead()
      requires Lined() && Queued() && Between() && b == k == |ls| && lead != []
      modifies this`lead, this`pending, this`ends
      ensures Queued() && lead == [] && ends == Then(old(ends).Before(), |ls|) && InHand() <= Max(1, old(InHand()))
    {
      assert Keeps(Buffers) && Keeps(Marks) && Keeps(Waiting);
      var p := Part(lead, leadStart);
      KindsLength(ls);
      PartTokens(ls, a, k);
      StandEnd(kinds, ends, a);
      if pending.Some? { JoinLead(p); } else { HoldLead(p); }
      lead := [];
    }

    /** With no object at all, the lines are one. */
    method HoldLead(p: Part)
      requires Queued() && pending.None? && ends.NoEnds? && obj == [] && TokensOfParts([p]) == Tok(ls, 0, k)
      modifies this`pending, this`ends
      ensures Queued() && ends == Then(NoEnds, k) && InHand() == 1
    {
      NoneQueued(ls, ends, objects, out[head..], pending);
      Hold([p], k);
    }

    /** The object held back goes on to the last line. */
    method JoinLead(p: Part)
      requires Lined() && Queued() && Keeps(Marks) && Keeps(Waiting) && pending.Some? && a < b == k == |ls|
      requires TokensOfParts([p]) == Tok(ls, a, k)
      modifies this`pending, this`ends
      ensures Queued() && ends == Then(old(ends).Before(), k) && InHand() == old(InHand())
    {
      KindsLength(ls);
      TrailHeld(ls, ends, a, objects, out[head..], pending.value, p);
      pending := Some(pending.value + [p]);
      ends := Then(ends.Before(), k);
    }

    /** The tokens of a chunk, part by part. */
    method ChunkTokens(c: seq<Part>) returns (toks: seq<Token>)
      ensures toks == TokensOfParts(c)
    {
      toks := [];
      for i := 0 to |c|
        invariant toks == TokensOfParts(c[..i])
      {
        var more := TokenizeAt(c[i].text, c[i].at.line, c[i].at.byte);
        TokensNext(c, i);
        toks := toks + more;
      }
      assert c[..|c|] == c;
    }

    /** The objects the consumer has when it has taken all it wants and the one it breaks on, less that one. */
    ghost function Goal(): int
      reads this`objects, this`left, this`stopped
    {
      |objects| + (if left.None? then 0 else left.value) - (if stopped then 1 else 0)
    }

    /** A consumer that breaks keeps to its goal, and one that does not is not stopped. */
    twostate predicate Kept()
      reads this`objects, this`left, this`stopped
    {
      left.Some? == old(left).Some? && if left.Some? then Goal() == old(Goal()) &&
        (stopped && !old(stopped) ==> left.value == 0) else stopped == old(stopped)
    }

    /** The object at the head of the queue goes to the consumer, who may stop then. */
    method YieldHead()
      requires Queued() && head < |out| && !stopped
      modifies this`head, this`stopped, this`left, this`objects
      ensures Queued() && head == old(head) + 1 && Kept() && InHand() == old(InHand()) - 1
    {
      HeadHeld(ls, ends, objects, out[head..], pending);
      assert out[head..][1..] == out[head + 1..];
      var toks := ChunkTokens(out[head]);
      objects := objects + [toks];
      head := head + 1;
      if left.Some? {
        if left.value == 0 { stopped := true; } else { left := Some(left.value - 1); }
      }
    }

    /** Queued objects go to the consumer until the queue is empty or it stops. */
    method Drain()
      requires Queued()
      modifies this`out, this`head, this`stopped, this`left, this`objects
      ensures Queued() && (stopped || head == |out|) && Kept() && InHand() <= old(InHand())
    {
      while head < |out| && !stopped
        invariant Queued() && Kept() && InHand() <= old(InHand())
        decreases |out| - head
      {
        YieldHead();
      }
      if head == |out| {
        assert out[head..] == [];
        out, head := [], 0;
      }
    }

    /** The next line is read, if any is left; last tells when none is after it. */
    method ReadLine() returns (last: bool)
      requires Lined() && Queued() && Between() && Reading()
      modifies this`rest, this`pos, this`lead, this`leadStart, this`obj, this`objStart, this`pending, this`out,
               this`ends, this`a, this`b,
               this`k
      ensures Queued() && Between() && Reading() && (if last then rest == [] else |rest| < |old(rest)|)
      ensures InHand() <= old(InHand()) + 1
    {
      var n := FirstLine(rest);
      var raw := rest[..n];
      last := !EndsLine(raw);
      LastIsAll(rest);
      if raw == [] { return; }
      ghost var j := k;
      NextLine(rest, ls, j);
      PosNext(ls, j);
      Line(raw);
      Skip(n, j);
    }

    /** The reader moves past the line it read, the j-th. */
    method Skip(n: nat, ghost j: nat)
      requires n <= |rest| && j < |ls| && pos == At(ls, j) && At(ls, j + 1) == Pos(pos.line + 1, pos.byte + n)
      requires k == j + 1 && a < k && Lines(rest[n..]) == ls[j + 1..]
      modifies this`rest, this`pos
      ensures Reading() && rest == old(rest)[n..]
    {
      rest, pos := rest[n..], Pos(pos.line + 1, pos.byte + n);
    }

    /** The next line is read; at the end of the input all that is left is queued. */
    method Next()
      requires Lined() && Queued() && Front() && !finished && head == |out|
      modifies this`rest, this`pos, this`lead, this`leadStart, this`obj, this`objStart, this`pending, this`out,
               this`finished,
               this`ends, this`a, this`b, this`k
      ensures Queued() && Front() && (finished || |rest| < |old(rest)|) && InHand() <= 2
    {
      OneAtMost();
      var last := ReadLine();
      if last { EndInput(); }
    }

    method EndInput()
      requires Lined() && Queued() && Between() && Reading() && rest == []
      modifies this`lead, this`obj, this`pending, this`out, this`finished, this`ends, this`a, this`b
      ensures Queued() && Front() && finished && InHand() <= Max(1, old(InHand()))
    {
      NoMore(rest, ls, k);
      Finish();
      finished := true;
    }

    /** With none queued, there is at most the object held back or the one in progress. */
    lemma {:induction false} OneAtMost()
      requires Between() && head == |out|
      ensures InHand() <= 1
    {
      assert Keeps(Waiting) && Keeps(Buffers);
    }

    method Pump(ghost want: Option<nat>, ghost n: nat)
      requires Valid() && !finished && !stopped && head == |out| && Wants(want, n)
      modifies this
      ensures Valid() && (stopped || head == |out|) && Wants(want, n) && (finished || |rest| < |old(rest)|)
    {
      Next();
      DrainOn(want, n);
    }

    method DrainOn(ghost want: Option<nat>, ghost n: nat)
      requires Queued() && !stopped && Wants(want, n)
      modifies this`out, this`head, this`stopped, this`left, this`objects
      ensures Queued() && (stopped || head == |out|) && Wants(want, n) && InHand() <= old(InHand())
    {
      Drain();
    }

    /** A range begins with what is queued. */
    method Resume(want: Option<nat>)
      requires Queued()
      modifies this`stopped, this`left, this`out, this`head, this`objects
      ensures Queued() && (stopped || head == |out|) && Wants(want, |old(objects)|) && InHand() <= old(InHand())
    {
      stopped, left := false, want;
      Drain();
    }

    /** The consumer, who had n objects, breaks on the one after want more, or never. */
    ghost predicate Wants(want: Option<nat>, n: nat)
      reads this`objects, this`left, this`stopped
    {
      left.Some? == want.Some? && if want.Some? then Goal() == n + want.value && (stopped ==> left.value == 0)
        else !stopped
    }

    /** The objects of the lines. */
    ghost function All(): seq<seq<Token>> { Groups(ls, 0, ObjectEnds(kinds, 0)) }

    /** One range over the stream: the consumer gets all that is left, or breaks on the object after want; what it
        has had so far is the front of the objects of the input. */
    method Run(want: Option<nat>)
      requires Valid()
      modifies this
      ensures Valid() && (stopped || (finished && head == |out|))
      ensures if want.None? then !stopped else |objects| <= |old(objects)| + want.value + 1
      ensures stopped && want.Some? ==> |objects| == |old(objects)| + want.value + 1
      ensures objects <= All() && (!stopped ==> objects == All())
    {
      ghost var n := |objects|;
      RunOn(want);
      assert Wants(want, n);
      FrontGiven();
      if !stopped { AllGiven(); }
    }

    method RunOn(want: Option<nat>)
      requires Valid()
      modifies this
      ensures Valid() && (stopped || (finished && head == |out|)) && Wants(want, |old(objects)|)
    {
      ghost var n := |objects|;
      Resume(want);
      while !stopped && !finished
        invariant Valid() && (stopped || head == |out|) && Wants(want, n)
        decreases if finished then 0 else 1 + |rest|
      {
        Pump(want, n);
      }
    }

    constructor (src: string)
      ensures Valid() && All() == ObjectsOf(src) && objects == []
    {
      ls, kinds := Lines(src), Kinds(Lines(src));
      rest, pos, lead, leadStart, obj, objStart := src, Pos(1, 0), [], Pos(1, 0), [], Pos(1, 0);
      pending, out, head, stopped, finished, left, objects := None, [], 0, false, false, None, [];
      ends, a, b, k := NoEnds, 0, 0, 0;
      new;
      LinesWhole(src);
      KindsLength(ls);
      HoldsNone(ls, 0, Pos(1, 0));
      assert ls[..0] == [] && ls[0..] == ls;
    }

    /** What the consumer has had is the front of the objects of the input. */
    lemma {:induction false} FrontGiven()
      requires Lined() && Queued() && Front()
      ensures objects <= All()
    {
      var queue := out[head..];
      if finished {
        GroupsInOrder(ls, ends);
        HeldFront(objects, queue, pending);
      } else {
        assert Keeps(Marks) && Keeps(Waiting);
        FrontHeld(ls, kinds, ends, a, b, k, objects, queue, pending);
      }
    }

    /** When a range has given all, the consumer has had the objects of the input. */
    lemma {:induction false} AllGiven()
      requires Valid() && finished && head == |out|
      ensures objects == All()
    {
      assert out[head..] == [];
      assert objects + [] + [] == objects;
      GroupsInOrder(ls, ends);
    }
  }

  /** How many objects a consumer has had that broke on the one after each of these numbers, if there are as many. */
  function Wanted(breaks: seq<nat>): nat {
    if breaks == [] then 0 else Wanted(breaks[..|breaks| - 1]) + breaks[|breaks| - 1] + 1
  }

  /** A consumer that ranges over the stream any number of times, breaking each time, has had the first objects of
      the input, as many as it asked for or all. */
  method ConsumeSome(src: string, breaks: seq<nat>) returns (objects: seq<seq<Token>>)
    ensures objects == ObjectsOf(src)[..Min(Wanted(breaks), |ObjectsOf(src)|)]
  {
    var s := new Streamer(src);
    ghost var all := ObjectsOf(src);
    for i := 0 to |breaks|
      invariant s.Valid() && s.All() == all && s.objects <= all && |s.objects| == Min(Wanted(breaks[..i]), |all|)
    {
      WantedNext(breaks, i);
      RunNext(s, breaks[i], Wanted(breaks[..i]), all);
    }
    assert breaks[..|breaks|] == breaks;
    objects := s.objects;
  }

  lemma {:induction false} WantedNext(breaks: seq<nat>, i: nat)
    requires i < |breaks|
    ensures Wanted(breaks[..i + 1]) == Wanted(breaks[..i]) + breaks[i] + 1
  {
    assert breaks[..i + 1][..i] == breaks[..i];
  }

  method RunNext(s: Streamer, n: nat, ghost wanted: nat, ghost all: seq<seq<Token>>)
    requires s.Valid() && s.All() == all && |s.objects| == Min(wanted, |all|)
    modifies s
    ensures s.Valid() && s.All() == all && s.objects <= all && |s.objects| == Min(wanted + n + 1, |all|)
  {
    s.Run(Some(n));
  }

  /** A consumer that ranges over the stream any number of times, breaking on the object after as many as it
      wants, and then once to the end, gets exactly the objects of the input, each with the source of its own lines;
      together they have the tokens of the whole input, and with them its every byte. */
  method Consume(src: string, breaks: seq<nat>) returns (objects: seq<seq<Token>>)
    ensures objects == ObjectsOf(src)
    ensures RawEach(objects) == Texts(Lines(src), 0, ObjectEnds(Kinds(Lines(src)), 0))
    ensures LinesDivide(Lines(src), 0, ObjectEnds(Kinds(Lines(src)), 0))
    ensures Concat(objects) == Tokens(src, 1, 0) && RawOf(Concat(objects)) == src
  {
    var s := new Streamer(src);
    for i := 0 to |breaks|
      invariant s.Valid() && s.All() == ObjectsOf(src)
    {
      s.Run(Some(breaks[i]));
    }
    s.Run(None);
    objects := s.objects;
    LinesWhole(src);
    GroupsRaw(Lines(src), 0, ObjectEnds(Kinds(Lines(src)), 0));
    OnlyLinesDivision(Lines(src), ObjectEnds(Kinds(Lines(src)), 0));
    ObjectsTokens(src);
    Lossless(src, 1, 0);
  }

  lemma {:induction false} NoMore(rest: string, ls: seq<string>, k: nat)
    requires rest == [] && k <= |ls| && Lines(rest) == ls[k..]
    ensures k == |ls|
  {
  }

  lemma {:induction false} NextLine(rest: string, ls: seq<string>, k: nat)
    requires rest != [] && k <= |ls| && Lines(rest) == ls[k..]
    ensures k < |ls| && ls[k] == rest[..FirstLine(rest)] && Lines(rest[FirstLine(rest)..]) == ls[k + 1..]
  {
    FirstOfLines(rest);
    assert ls[k..][0] == ls[k] && ls[k..][1..] == ls[k + 1..];
    assert Lines(rest)[1..] == Lines(rest[FirstLine(rest)..]);
  }

  lemma {:induction false} PosNext(ls: seq<string>, k: nat)
    requires k < |ls|
    ensures At(ls, k + 1) == Pos(At(ls, k).line + 1, At(ls, k).byte + |ls[k]|)
  {
    assert ls[..k + 1] == ls[..k] + [ls[k]];
    BytesSnoc(ls[..k], ls[k]);
  }

  lemma {:induction false} BytesSnoc(ls: seq<string>, raw: string)
    ensures Bytes(ls + [raw]) == Bytes(ls) + |raw|
    decreases |ls|
  {
    if ls == [] {
      assert (ls + [raw])[1..] == [];
    } else {
      BytesSnoc(ls[1..], raw);
      assert (ls + [raw])[1..] == ls[1..] + [raw];
    }
  }
}
