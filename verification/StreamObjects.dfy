/** Where a stream's objects begin and end (stream.go:87-98, 247-288, 475-507): the lines
    without an attribute before an object are its own, the next blank line after its first attribute ends it, and
    what trails the last object is its own too. */
module StreamObjects {
  import opened Collections
  import opened Prefixes
  import opened Lexer
  import opened Streams

  datatype LineKind = Empty | Opens | Other

  function KindOf(raw: string): LineKind {
    var t := Text(raw);
    if IsBlankLine(t) then Empty else if StartsAttribute(t) then Opens else Other
  }

  function Kinds(ls: seq<string>): seq<LineKind> { if ls == [] then [] else [KindOf(ls[0])] + Kinds(ls[1..]) }

  lemma {:induction false} KindsLength(ls: seq<string>)
    ensures |Kinds(ls)| == |ls|
    decreases |ls|
  {
    if ls != [] { KindsLength(ls[1..]); }
  }

  lemma {:induction false} KindAt(ls: seq<string>, i: nat)
    requires i < |ls|
    ensures |Kinds(ls)| == |ls| && Kinds(ls)[i] == KindOf(ls[i])
    decreases i
  {
    KindsLength(ls);
    if i > 0 { KindAt(ls[1..], i - 1); }
  }

  // ---- where objects end ----

  predicate NoneOpens(ks: seq<LineKind>, i: nat, j: nat) { forall x :: i <= x < j && x < |ks| ==> !ks[x].Opens? }

  predicate NoneEmpty(ks: seq<LineKind>, i: nat, j: nat) { forall x :: i <= x < j && x < |ks| ==> !ks[x].Empty? }

  function NextOpen(ks: seq<LineKind>, i: nat): (o: nat)
    requires i <= |ks|
    ensures i <= o <= |ks| && NoneOpens(ks, i, o) && (o < |ks| ==> ks[o].Opens?)
    decreases |ks| - i
  {
    if i == |ks| || ks[i].Opens? then i else NextOpen(ks, i + 1)
  }

  function NextEmpty(ks: seq<LineKind>, i: nat): (e: nat)
    requires i <= |ks|
    ensures i <= e <= |ks| && NoneEmpty(ks, i, e) && (e < |ks| ==> ks[e].Empty?)
    decreases |ks| - i
  {
    if i == |ks| || ks[i].Empty? then i else NextEmpty(ks, i + 1)
  }

  /** The end of what starts at line i: the blank line after its first attribute, or the end of the input. */
  function EndOf(ks: seq<LineKind>, i: nat): (e: nat)
    requires i <= |ks|
    ensures i < |ks| ==> i < e
    ensures e <= |ks|
  {
    NextEmpty(ks, NextOpen(ks, i))
  }

  /** The ends of the objects from line i on: an object after which no line starts an attribute is the last,
      and what follows it is its own. */
  function ObjectEnds(ks: seq<LineKind>, i: nat): seq<nat>
    decreases |ks| - i
  {
    if i >= |ks| then []
    else
      var e := EndOf(ks, i);
      if NextOpen(ks, e) == |ks| then [|ks|] else [e] + ObjectEnds(ks, e)
  }

  // ---- what the ends mean ----

  /** The lines from s to before e are one object: they have an attribute, unless no line of the input does;
      a blank line follows, unless nothing does; and after the first attribute there is no blank line, unless
      no line from it on starts an attribute. */
  predicate OneObject(ks: seq<LineKind>, s: nat, e: nat) {
    && s < e <= |ks|
    && var o := NextOpen(ks, s);
       && (o < e || (s == 0 && e == o == |ks|))
       && (e < |ks| ==> ks[e].Empty? && NoneEmpty(ks, o, e) && NextOpen(ks, e) < |ks|)
       && NoneOpens(ks, NextEmpty(ks, o), e)
  }

  /** ends divides the lines from the one at from on into objects. */
  predicate Divides(ks: seq<LineKind>, from: nat, ends: seq<nat>)
    decreases |ends|
  {
    if ends == [] then from == |ks| else OneObject(ks, from, ends[0]) && Divides(ks, ends[0], ends[1..])
  }

  /** An object ends in just one place. */
  lemma {:induction false} OneEnd(ks: seq<LineKind>, s: nat, e: nat, e': nat)
    requires OneObject(ks, s, e) && OneObject(ks, s, e')
    ensures e == e'
  {
    var o := NextOpen(ks, s);
    assert e < |ks| ==> e == NextEmpty(ks, o);
    assert e' < |ks| ==> e' == NextEmpty(ks, o);
  }

  lemma {:induction false} SameDivision(ks: seq<LineKind>, from: nat, ends: seq<nat>, ends': seq<nat>)
    requires Divides(ks, from, ends) && Divides(ks, from, ends')
    ensures ends == ends'
    decreases |ends|
  {
    if ends != [] && ends' != [] {
      OneEnd(ks, from, ends[0], ends'[0]);
      SameDivision(ks, ends[0], ends[1..], ends'[1..]);
      assert ends == [ends[0]] + ends[1..] && ends' == [ends'[0]] + ends'[1..];
    }
  }

  lemma {:induction false} EndsDivide(ks: seq<LineKind>, i: nat)
    requires i <= |ks| && (i > 0 && i < |ks| ==> NextOpen(ks, i) < |ks|)
    ensures Divides(ks, i, ObjectEnds(ks, i))
    decreases |ks| - i
  {
    if i < |ks| {
      var e := EndOf(ks, i);
      if NextOpen(ks, e) == |ks| {
        assert [|ks|][1..] == [];
      } else {
        EndsDivide(ks, e);
        assert ([e] + ObjectEnds(ks, e))[1..] == ObjectEnds(ks, e);
      }
    }
  }

  /** The lines divide into objects in just one way, and ObjectEnds is it. */
  lemma {:induction false} OnlyDivision(ks: seq<LineKind>, ends: seq<nat>)
    ensures Divides(ks, 0, ends) <==> ends == ObjectEnds(ks, 0)
  {
    EndsDivide(ks, 0);
    if Divides(ks, 0, ends) { SameDivision(ks, 0, ends, ObjectEnds(ks, 0)); }
  }

  // ---- cutting objects off as lines come ----

  /** Where the objects cut off end, the last one first. */
  datatype Ends = NoEnds | Then(before: Ends, end: nat) {
    function Last(): nat { if NoEnds? then 0 else end }

    /** The objects but the last. */
    function Before(): Ends { if NoEnds? then NoEnds else before }

    function InOrder(): seq<nat> { if NoEnds? then [] else before.InOrder() + [end] }
  }

  /** Each object cut off ends where the lines after the one before do, and has an attribute. */
  predicate Cut(ks: seq<LineKind>, ends: Ends) {
    ends.NoEnds? || (Cut(ks, ends.before) && CutAt(ks, ends.before.Last(), ends.end))
  }

  predicate CutAt(ks: seq<LineKind>, a: nat, k: nat) { a < |ks| && NextOpen(ks, a) < |ks| && EndOf(ks, a) == k }

  /** The objects cut off end at ends, the last of them before line a. */
  predicate CutSoFar(ks: seq<LineKind>, ends: Ends, a: nat) { ends.Last() == a <= |ks| && Cut(ks, ends) }

  /** The objects cut off end before line a, no line from there to b starts an attribute, and the b-th starts
      one that no blank line ends before the k-th. */
  predicate Standing(ks: seq<LineKind>, ends: Ends, a: nat, b: nat, k: nat) {
    CutSoFar(ks, ends, a) && a <= b <= k <= |ks| && NoneOpens(ks, a, b) && NoneEmpty(ks, b, k) &&
      (b < k ==> ks[b].Opens?)
  }

  lemma {:induction false} StandTrivia(ks: seq<LineKind>, ends: Ends, a: nat, k: nat)
    requires Standing(ks, ends, a, k, k) && k < |ks| && !ks[k].Opens?
    ensures Standing(ks, ends, a, k + 1, k + 1)
  {
  }

  lemma {:induction false} StandObject(ks: seq<LineKind>, ends: Ends, a: nat, b: nat, k: nat)
    requires Standing(ks, ends, a, b, k) && k < |ks| && !ks[k].Empty? && (b == k ==> ks[k].Opens?)
    ensures Standing(ks, ends, a, b, k + 1)
  {
  }

  lemma {:induction false} StandCut(ks: seq<LineKind>, ends: Ends, a: nat, b: nat, k: nat)
    requires Standing(ks, ends, a, b, k) && b < k && (k < |ks| ==> ks[k].Empty?)
    ensures ends.Last() == a && Standing(ks, Then(ends, k), k, k, k) && ks[b].Opens?
  {
    CutNext(ks, ends, a, b, k);
  }

  lemma {:induction false} StandOpens(ks: seq<LineKind>, ends: Ends, a: nat, b: nat, k: nat)
    requires Standing(ks, ends, a, b, k) && b < k
    ensures ks[b].Opens?
  {
  }

  /** Nothing is left after the objects cut off, or only lines that trail the last. */
  lemma {:induction false} StandEnd(ks: seq<LineKind>, ends: Ends, a: nat)
    requires Standing(ks, ends, a, |ks|, |ks|)
    ensures ends.Last() == a && ObjectEnds(ks, 0) == if a == |ks| then ends.InOrder()
            else Then(ends.Before(), |ks|).InOrder()
    ensures a < |ks| && ends.Then? ==> ends.before.Last() < a && ks[a].Empty?
  {
    EndsOfCut(ks, ends, a);
    if a < |ks| { assert NextOpen(ks, a) == |ks| == EndOf(ks, a); }
  }

  /** Lines a to k, the b-th the first that opens, none blank from it on, and then a blank one or none. */
  lemma {:induction false} EndsHere(ks: seq<LineKind>, a: nat, b: nat, k: nat)
    requires a <= b < k <= |ks| && NoneOpens(ks, a, b) && ks[b].Opens? && NoneEmpty(ks, b, k)
    requires k < |ks| ==> ks[k].Empty?
    ensures NextOpen(ks, a) == b && EndOf(ks, a) == k
  {
  }

  lemma {:induction false} EndsNext(ks: seq<LineKind>, all: seq<nat>, ends: seq<nat>, a: nat, k: nat)
    requires a < |ks| && EndOf(ks, a) == k && all == ends + ObjectEnds(ks, a)
    ensures all == if NextOpen(ks, k) == |ks| then ends + [|ks|] else (ends + [k]) + ObjectEnds(ks, k)
  {
    if NextOpen(ks, k) < |ks| { assert ends + ([k] + ObjectEnds(ks, k)) == (ends + [k]) + ObjectEnds(ks, k); }
  }

  /** An object ends before line k. */
  lemma {:induction false} CutNext(ks: seq<LineKind>, ends: Ends, a: nat, b: nat, k: nat)
    requires CutSoFar(ks, ends, a) && a <= b < k <= |ks|
    requires NoneOpens(ks, a, b) && ks[b].Opens? && NoneEmpty(ks, b, k) && (k < |ks| ==> ks[k].Empty?)
    ensures CutSoFar(ks, Then(ends, k), k)
  {
    EndsHere(ks, a, b, k);
  }

  /** If no line after the objects cut off starts an attribute, the last of them takes what is left; otherwise
      the objects from there on follow. */
  lemma {:induction false} EndsOfCut(ks: seq<LineKind>, ends: Ends, a: nat)
    requires CutSoFar(ks, ends, a)
    ensures ObjectEnds(ks, 0) ==
            if ends.Then? && NextOpen(ks, a) == |ks| then ends.before.InOrder() + [|ks|]
            else ends.InOrder() + ObjectEnds(ks, a)
    decreases ends
  {
    if ends.Then? {
      EndsOfCut(ks, ends.before, ends.before.Last());
      EndsNext(ks, ObjectEnds(ks, 0), ends.before.InOrder(), ends.before.Last(), a);
    } else {
      assert [] + ObjectEnds(ks, 0) == ObjectEnds(ks, 0);
    }
  }

  // ---- the objects' tokens ----

  /** The tokens of each stretch of lines, from one end to the next. */
  function Groups(ls: seq<string>, from: nat, ends: seq<nat>): seq<seq<Token>>
    decreases |ends|
  {
    if ends == [] then [] else [Tok(ls, from, ends[0])] + Groups(ls, ends[0], ends[1..])
  }

  /** The objects of src, each its tokens. */
  function ObjectsOf(src: string): seq<seq<Token>> { Groups(Lines(src), 0, ObjectEnds(Kinds(Lines(src)), 0)) }

  function LastOr(from: nat, ends: seq<nat>): nat { if ends == [] then from else ends[|ends| - 1] }

  /** What f gives of each stretch of lines, from one end to the next. */
  function Stretches<T>(f: (nat, nat) -> T, from: nat, ends: seq<nat>): seq<T>
    decreases |ends|
  {
    if ends == [] then [] else [f(from, ends[0])] + Stretches(f, ends[0], ends[1..])
  }

  lemma {:induction false} StretchesSnoc<T>(f: (nat, nat) -> T, from: nat, ends: seq<nat>, e: nat)
    ensures Stretches(f, from, ends + [e]) == Stretches(f, from, ends) + [f(LastOr(from, ends), e)]
    decreases |ends|
  {
    if ends == [] {
      assert (ends + [e])[1..] == [];
    } else {
      StretchesSnoc(f, ends[0], ends[1..], e);
      assert (ends + [e])[0] == ends[0] && (ends + [e])[1..] == ends[1..] + [e];
    }
  }

  lemma {:induction false} GroupsAre(ls: seq<string>, from: nat, ends: seq<nat>, f: (nat, nat) -> seq<Token>)
    requires forall i, j :: f(i, j) == Tok(ls, i, j)
    ensures Groups(ls, from, ends) == Stretches(f, from, ends)
    decreases |ends|
  {
    if ends != [] { GroupsAre(ls, ends[0], ends[1..], f); }
  }

  lemma {:induction false} GroupsSnoc(ls: seq<string>, from: nat, ends: seq<nat>, e: nat)
    ensures Groups(ls, from, ends + [e]) == Groups(ls, from, ends) + [Tok(ls, LastOr(from, ends), e)]
  {
    var f := (i: nat, j: nat) => Tok(ls, i, j);
    GroupsAre(ls, from, ends, f);
    GroupsAre(ls, from, ends + [e], f);
    StretchesSnoc(f, from, ends, e);
  }

  function GroupsTo(ls: seq<string>, ends: Ends): seq<seq<Token>> {
    if ends.NoEnds? then [] else GroupsTo(ls, ends.before) + [Tok(ls, ends.before.Last(), ends.end)]
  }

  lemma {:induction false} GroupsInOrder(ls: seq<string>, ends: Ends)
    ensures LastOr(0, ends.InOrder()) == ends.Last() && GroupsTo(ls, ends) == Groups(ls, 0, ends.InOrder())
    decreases ends
  {
    if ends.Then? {
      GroupsInOrder(ls, ends.before);
      GroupsSnoc(ls, 0, ends.before.InOrder(), ends.end);
    }
  }

  /** Objects tokenized apart have the tokens of the lines they cover. */
  lemma {:induction false} GroupsJoin(ls: seq<string>, from: nat, ends: seq<nat>)
    requires Divides(Kinds(ls), from, ends) && ends != []
    ensures Concat(Groups(ls, from, ends)) == Tok(ls, from, |ls|)
    decreases |ends|
  {
    KindsLength(ls);
    var e := ends[0];
    if |ends| == 1 {
      assert ends[1..] == [];
      assert Tok(ls, from, e) + [] == Tok(ls, from, e);
    } else {
      assert OneObject(Kinds(ls), e, ends[1..][0]);
      GroupsJoin(ls, e, ends[1..]);
      KindAt(ls, e);
      TokJoin(ls, from, e, |ls|);
    }
  }

  /** Together the objects have the tokens of the whole input. */
  lemma {:induction false} ObjectsTokens(src: string)
    ensures Concat(ObjectsOf(src)) == Tokens(src, 1, 0)
  {
    var ls := Lines(src);
    KindsLength(ls);
    EndsDivide(Kinds(ls), 0);
    if ls != [] {
      GroupsJoin(ls, 0, ObjectEnds(Kinds(ls), 0));
      assert ls[0..|ls|] == ls && ls[..0] == [];
    }
  }

  /** The source of each of a list of objects. */
  function RawEach(os: seq<seq<Token>>): seq<string> { Each(RawOf, os) }

  /** The source of each stretch of lines. */
  function Texts(ls: seq<string>, from: nat, ends: seq<nat>): seq<string>
    decreases |ends|
  {
    if ends == [] then []
    else [if from <= ends[0] <= |ls| then Concat(ls[from..ends[0]]) else []] + Texts(ls, ends[0], ends[1..])
  }

  /** Each object has the source of its own lines. */
  lemma {:induction false} GroupsRaw(ls: seq<string>, from: nat, ends: seq<nat>)
    requires Whole(ls)
    ensures RawEach(Groups(ls, from, ends)) == Texts(ls, from, ends)
    decreases |ends|
  {
    if ends != [] {
      GroupsRaw(ls, ends[0], ends[1..]);
      if from <= ends[0] <= |ls| { TokRaw(ls, from, ends[0]); }
    }
  }

  function Each<T, R>(f: T -> R, q: seq<T>): seq<R> { if q == [] then [] else [f(q[0])] + Each(f, q[1..]) }

  lemma {:induction false} EachSnoc<T, R>(f: T -> R, q: seq<T>, c: T)
    ensures Each(f, q + [c]) == Each(f, q) + [f(c)]
    decreases |q|
  {
    if q == [] {
      assert (q + [c])[1..] == [];
    } else {
      EachSnoc(f, q[1..], c);
      assert (q + [c])[1..] == q[1..] + [c];
    }
  }

  function Chunks(q: seq<seq<Part>>): seq<seq<Token>> { Each(TokensOfParts, q) }

  /** The finished objects: given to the consumer, queued, held back. */
  function Held(objects: seq<seq<Token>>, queue: seq<seq<Part>>, pending: Option<seq<Part>>): seq<seq<Token>> {
    objects + Chunks(queue) + if pending.None? then [] else [TokensOfParts(pending.value)]
  }

  /** The finished objects are those that end at ends. */
  predicate Tally(ls: seq<string>, ends: Ends, objects: seq<seq<Token>>, queue: seq<seq<Part>>,
                  pending: Option<seq<Part>>) {
    GroupsTo(ls, ends) == Held(objects, queue, pending)
  }

  lemma {:induction false} EmitHeld(ls: seq<string>, ends: Ends, objects: seq<seq<Token>>, queue: seq<seq<Part>>,
                                    p: seq<Part>)
    requires Tally(ls, ends, objects, queue, Some(p))
    ensures Tally(ls, ends, objects, queue + [p], None)
  {
    EachSnoc(TokensOfParts, queue, p);
  }

  lemma {:induction false} HeadHeld(ls: seq<string>, ends: Ends, objects: seq<seq<Token>>, queue: seq<seq<Part>>,
                                    pending: Option<seq<Part>>)
    requires Tally(ls, ends, objects, queue, pending) && queue != []
    ensures Tally(ls, ends, objects + [TokensOfParts(queue[0])], queue[1..], pending)
  {
    assert objects + ([TokensOfParts(queue[0])] + Chunks(queue[1..])) == (objects + [TokensOfParts(queue[0])]) +
           Chunks(queue[1..]);
  }

  /** With no object finished, none is queued. */
  lemma {:induction false} NoneQueued(ls: seq<string>, ends: Ends, objects: seq<seq<Token>>, queue: seq<seq<Part>>,
                                      pending: Option<seq<Part>>)
    requires Tally(ls, ends, objects, queue, pending) && ends.NoEnds?
    ensures queue == []
  {
    assert queue != [] ==> |Chunks(queue)| > 0;
  }

  lemma {:induction false} HeldFront(objects: seq<seq<Token>>, queue: seq<seq<Part>>, pending: Option<seq<Part>>)
    ensures objects <= Held(objects, queue, pending)
  {
  }

  lemma {:induction false} GroupsFront(ls: seq<string>, from: nat, ends: seq<nat>, more: seq<nat>)
    ensures Groups(ls, from, ends) <= Groups(ls, from, ends + more)
    decreases |ends|
  {
    if ends != [] {
      GroupsFront(ls, ends[0], ends[1..], more);
      assert (ends + more)[1..] == ends[1..] + more;
    }
  }

  /** Objects cut off are those of the input, but for the last when it is held back: trailing lines may join it. */
  lemma {:induction false} CutFront(ls: seq<string>, ks: seq<LineKind>, ends: Ends, a: nat, b: nat, k: nat)
    requires Standing(ks, ends, a, b, k)
    ensures GroupsTo(ls, ends.Before()) <= Groups(ls, 0, ObjectEnds(ks, 0))
    ensures b < k ==> GroupsTo(ls, ends) <= Groups(ls, 0, ObjectEnds(ks, 0))
  {
    if b < k {
      assert NextOpen(ks, a) < |ks|;
      CutAll(ls, ks, ends, a);
    }
    if ends.Then? { CutButLast(ls, ks, ends, a); }
  }

  lemma {:induction false} CutAll(ls: seq<string>, ks: seq<LineKind>, ends: Ends, a: nat)
    requires CutSoFar(ks, ends, a) && NextOpen(ks, a) < |ks|
    ensures GroupsTo(ls, ends) <= Groups(ls, 0, ObjectEnds(ks, 0))
  {
    EndsOfCut(ks, ends, a);
    GroupsInOrder(ls, ends);
    GroupsFront(ls, 0, ends.InOrder(), ObjectEnds(ks, a));
  }

  lemma {:induction false} CutThenRest(ks: seq<LineKind>, ends: Ends, a: nat, rest: seq<nat>)
    requires CutSoFar(ks, ends, a) && ends.Then?
    requires rest == if NextOpen(ks, a) == |ks| then [|ks|] else [a] + ObjectEnds(ks, a)
    ensures ObjectEnds(ks, 0) == ends.before.InOrder() + rest
  {
    EndsOfCut(ks, ends, a);
    Assoc(ends.before.InOrder(), [a], ObjectEnds(ks, a));
  }

  lemma {:induction false} CutButLast(ls: seq<string>, ks: seq<LineKind>, ends: Ends, a: nat)
    requires CutSoFar(ks, ends, a) && ends.Then?
    ensures GroupsTo(ls, ends.before) <= Groups(ls, 0, ObjectEnds(ks, 0))
  {
    var most := ends.before.InOrder();
    var rest := if NextOpen(ks, a) == |ks| then [|ks|] else [a] + ObjectEnds(ks, a);
    CutThenRest(ks, ends, a, rest);
    GroupsInOrder(ls, ends.before);
    GroupsFront(ls, 0, most, rest);
  }

  lemma {:induction false} FrontHeld(ls: seq<string>, ks: seq<LineKind>, ends: Ends, a: nat, b: nat, k: nat,
                                     objects: seq<seq<Token>>, queue: seq<seq<Part>>, pending: Option<seq<Part>>)
    requires Standing(ks, ends, a, b, k) && (pending.Some? <==> b == k && ends.Then?)
    requires Tally(ls, ends, objects, queue, pending)
    ensures objects <= Groups(ls, 0, ObjectEnds(ks, 0))
  {
    CutFront(ls, ks, ends, a, b, k);
    HeldFront(objects, queue, None);
    if pending.Some? {
      AllButLast(objects + Chunks(queue), TokensOfParts(pending.value), GroupsTo(ls, ends.Before()),
        Tok(ls, ends.before.Last(), ends.end));
    }
  }

  lemma {:induction false} AllButLast<T>(a: seq<T>, x: T, b: seq<T>, y: T)
    requires a + [x] == b + [y]
    ensures a == b
  {
    assert a == (a + [x])[..|a + [x]| - 1] && b == (b + [y])[..|b + [y]| - 1];
  }

  /** Holding back a chunk of the lines up to the e-th. */
  lemma {:induction false} HoldHeld(ls: seq<string>, ends: Ends, e: nat, objects: seq<seq<Token>>,
                                    queue: seq<seq<Part>>, c: seq<Part>)
    requires Tally(ls, ends, objects, queue, None) && TokensOfParts(c) == Tok(ls, ends.Last(), e)
    ensures Tally(ls, Then(ends, e), objects, queue, Some(c))
  {
  }

  lemma {:induction false} GrowTokens(ls: seq<string>, f: nat, a: nat, e: nat, c: seq<Part>, p: Part)
    requires f < a < e <= |ls| && !Marked(Text(ls[a])) && TokensOfParts(c) == Tok(ls, f, a)
    requires TokensOfParts([p]) == Tok(ls, a, e)
    ensures TokensOfParts(c + [p]) == Tok(ls, f, e)
  {
    TokJoin(ls, f, a, e);
    TokensSnoc(c, p);
    TokensSnoc([], p);
    assert [] + [p] == [p];
    NoTokens(PartToks(p));
  }

  /** Adding the lines up to the e-th to the chunk held back. */
  lemma {:induction false} GrowHeld(ls: seq<string>, ends: Ends, e: nat, objects: seq<seq<Token>>,
                                    queue: seq<seq<Part>>, c: seq<Part>, p: Part)
    requires ends.Then? && ends.before.Last() < ends.end < e <= |ls| && !Marked(Text(ls[ends.end]))
    requires Tally(ls, ends, objects, queue, Some(c)) && TokensOfParts([p]) == Tok(ls, ends.end, e)
    ensures Tally(ls, Then(ends.before, e), objects, queue, Some(c + [p]))
  {
    SameEnds(GroupsTo(ls, ends.before), Tok(ls, ends.before.Last(), ends.end), objects + Chunks(queue),
      TokensOfParts(c));
    GrowTokens(ls, ends.before.Last(), ends.end, e, c, p);
  }

  /** Lines that trail the last object, from the a-th on, join the chunk held back. */
  lemma {:induction false} TrailHeld(ls: seq<string>, ends: Ends, a: nat, objects: seq<seq<Token>>,
                                     queue: seq<seq<Part>>, c: seq<Part>, p: Part)
    requires Standing(Kinds(ls), ends, a, |ls|, |ls|) && a < |ls| && ends.Then?
    requires TokensOfParts([p]) == Tok(ls, a, |ls|)
    requires Tally(ls, ends, objects, queue, Some(c))
    ensures Tally(ls, Then(ends.before, |ls|), objects, queue, Some(c + [p]))
  {
    KindAt(ls, a);
    StandEnd(Kinds(ls), ends, a);
    GrowHeld(ls, ends, |ls|, objects, queue, c, p);
  }

  lemma {:induction false} SameEnds<T>(a: seq<T>, x: T, b: seq<T>, y: T)
    requires a + [x] == b + [y]
    ensures a == b && x == y
  {
    assert |a| == |b| && (a + [x])[|a|] == x && (b + [y])[|a|] == y;
    assert a == (a + [x])[..|a|] && b == (b + [y])[..|a|];
  }
}
