/** The printer and the parser of AS-path regexps undo each other, within the parser's nesting cap. */
module RegexpRoundTrip {
  import opened Prefixes
  import opened Regexps
  import opened RegexpSyntax

  // ---- the trees the parser makes ----

  predicate ItemOk(e: Re) {
    match e
    case As(a) => a <= MAX_ASN
    case AsRange(lo, hi) => lo <= hi <= MAX_ASN
    case Any => true
    case SetOf(_) => true
    case TemplateOf(_) => true
    case Peer => true
    case _ => false
  }

  predicate QuantOk(op: RepeatOp, min: int, max: int, same: bool) {
    match op
    case Star => min == 0 && max == -1
    case Plus => min == 1 && max == -1
    case Quest => min == 0 && max == 1 && !same
    case Range => 0 <= min <= MAX_INT && (max == -1 || min <= max <= MAX_INT)
  }

  /** No alternation or sequence of one, no quantifier on an anchor, AS ranges only in classes. */
  predicate Canonical(e: Re) {
    match e
    case Alt(es) => |es| >= 2 && AllCanonical(es)
    case Seq(es) => |es| != 1 && AllCanonical(es)
    case Repeat(x, op, min, max, same) => Canonical(x) && !x.Start? && !x.End? && QuantOk(op, min, max, same)
    case Class(_, es) => es != [] && forall k :: 0 <= k < |es| ==> ItemOk(es[k])
    case As(a) => a <= MAX_ASN
    case AsRange(_, _) => false
    case _ => true
  }

  predicate AllCanonical(es: seq<Re>) { es == [] || (Canonical(es[0]) && AllCanonical(es[1..])) }

  // ---- how deep the parser goes to read a rendering ----

  function Quants(e: Re): nat { if e.Repeat? then Quants(e.inner) + 1 else 0 }

  function Base(e: Re): Re { if e.Repeat? then Base(e.inner) else e }

  /** The levels a rendering of e takes: one for each group and each quantifier in a row. */
  function Need(e: Re, want: Prec): nat {
    match e
    case Alt(es) => (if want != PAlt then 1 else 0) + NeedAll(es, PSeq)
    case Seq(es) => if es == [] then 1 else (if want == PAtom then 1 else 0) + NeedAll(es, PAtom)
    case Repeat(x, _, _, _, _) => Max(Quants(e), Need(x, PAtom))
    case _ => 0
  }

  function NeedAll(es: seq<Re>, want: Prec): nat {
    if es == [] then 0 else Max(Need(es[0], want), NeedAll(es[1..], want))
  }

  function Size(e: Re): nat {
    match e
    case Alt(es) => 1 + SizeAll(es)
    case Seq(es) => 1 + SizeAll(es)
    case Repeat(x, _, _, _, _) => 1 + Size(x)
    case _ => 0
  }

  function SizeAll(es: seq<Re>): nat { if es == [] then 0 else 1 + Size(es[0]) + SizeAll(es[1..]) }

  // ---- renderings in front of other tokens ----

  /** Print(e, want) followed by rest. */
  function PrintTo(e: Re, want: Prec, rest: Tokens): Tokens {
    match e
    case Alt(es) => if want != PAlt then Cons(LParen, AltsTo(es, Cons(RParen, rest))) else AltsTo(es, rest)
    case Seq(es) =>
      if es == [] then Cons(LParen, Cons(RParen, rest))
      else if want == PAtom then Cons(LParen, TermsTo(es, Cons(RParen, rest))) else TermsTo(es, rest)
    case Repeat(x, _, _, _, _) => PrintTo(x, PAtom, RepeatTo(e, rest))
    case Any => Cons(Dot, rest)
    case As(a) => Cons(TWord(AsNumber(a)), rest)
    case SetOf(n) => Cons(TWord(SetWord(n)), rest)
    case TemplateOf(t) => Cons(TWord(TemplateWord(t)), rest)
    case Peer => Cons(TWord(PeerWord), rest)
    case Start => Cons(Caret, rest)
    case End => Cons(Dollar, rest)
    case Class(negated, es) =>
      var items := TermsTo(es, Cons(RBracket, rest));
      Cons(LBracket, if negated then Cons(Caret, items) else items)
    case AsRange(lo, hi) => Cons(TWord(AsNumber(lo)), Cons(Dash, Cons(TWord(AsNumber(hi)), rest)))
  }

  function TermsTo(es: seq<Re>, rest: Tokens): Tokens {
    if es == [] then rest else PrintTo(es[0], PAtom, TermsTo(es[1..], rest))
  }

  /** The branches es, each after a '|'. */
  function BranchesTo(es: seq<Re>, rest: Tokens): Tokens {
    if es == [] then rest else Cons(Pipe, PrintTo(es[0], PSeq, BranchesTo(es[1..], rest)))
  }

  function AltsTo(es: seq<Re>, rest: Tokens): Tokens {
    if es == [] then rest else PrintTo(es[0], PSeq, BranchesTo(es[1..], rest))
  }

  function RepeatTo(e: Re, rest: Tokens): Tokens
    requires e.Repeat?
  {
    if e.same then Cons(Tilde, OpTo(e.op, e.min, e.max, rest)) else OpTo(e.op, e.min, e.max, rest)
  }

  function OpTo(op: RepeatOp, min: int, max: int, rest: Tokens): Tokens {
    match op
    case Star => Cons(StarT, rest)
    case Plus => Cons(PlusT, rest)
    case Quest => Cons(QuestT, rest)
    case Range => Cons(LBrace, BoundsTo(min, max, rest))
  }

  function BoundsTo(min: int, max: int, rest: Tokens): Tokens {
    var close := Cons(RBrace, rest);
    Cons(TWord(Number(Abs(min))),
         if max == min then close else if max < 0 then Cons(Comma, close)
         else Cons(Comma, Cons(TWord(Number(max)), close)))
  }

  /** The quantifiers of e. */
  function QuantsTo(e: Re, rest: Tokens): Tokens { if e.Repeat? then QuantsTo(e.inner, RepeatTo(e, rest)) else rest }

  lemma {:induction false} BaseTo(e: Re, rest: Tokens)
    ensures PrintTo(e, PAtom, rest) == PrintTo(Base(e), PAtom, QuantsTo(e, rest))
    ensures Size(Base(e)) <= Size(e) && !Base(e).Repeat? && (Canonical(e) ==> Canonical(Base(e)))
    ensures Need(e, PAtom) == Max(Quants(e), Need(Base(e), PAtom))
    decreases e
  {
    if e.Repeat? { BaseTo(e.inner, RepeatTo(e, rest)); }
  }

  // ---- quantifiers ----

  lemma {:induction false} BoundsBack(min: int, max: int, rest: Tokens)
    requires QuantOk(Range, min, max, false)
    ensures RangeOf(BoundsTo(min, max, rest)) == Ok((min, max), rest, [])
  {
  }

  lemma {:induction false} QuantBack(e: Re, rest: Tokens)
    requires e.Repeat? && QuantOk(e.op, e.min, e.max, e.same)
    ensures QuantOf(RepeatTo(e, rest)) == Ok(Quant(e.op, e.min, e.max, e.same), rest, [])
    ensures QuantStart(Head(RepeatTo(e, rest)))
  {
    if e.op.Range? { BoundsBack(e.min, e.max, rest); }
  }

  /** Reading the quantifiers of a rendering rebuilds the repeats, one level each. */
  lemma {:induction false} QuantsBack(e: Re, rest: Tokens, d: nat, cap: nat)
    requires Canonical(e)
    ensures ParseQuants(QuantsTo(e, rest), Base(e), 0, d, cap) == ParseQuants(rest, e, Quants(e), d, cap)
    decreases e
  {
    if e.Repeat? {
      QuantsBack(e.inner, RepeatTo(e, rest), d, cap);
      QuantBack(e, rest);
    }
  }

  // ---- classes ----

  lemma {:induction false} ItemBack(e: Re, more: Tokens)
    requires ItemOk(e) && !Head(more).Dash?
    ensures var ts := PrintTo(e, PAtom, more);
            if e.Any? then Head(ts).Dot? && ts.tail == more
            else Head(ts).TWord? && ClassItem(ts.head.word, ts.tail) == Ok(e, more, [])
  {
  }

  lemma {:induction false} ItemsBack(es: seq<Re>, done: seq<Re>, rest: Tokens, r: Parsed<seq<Re>>)
    requires forall k :: 0 <= k < |es| ==> ItemOk(es[k])
    requires r == ClassItems(TermsTo(es, Cons(RBracket, rest)), done, [])
    ensures r == Ok(done + es, rest, [])
    ensures !Head(TermsTo(es, Cons(RBracket, rest))).Dash? && !Head(TermsTo(es, Cons(RBracket, rest))).Caret?
    decreases |es|
  {
    if es == [] {
      assert done + es == done;
    } else {
      var more := TermsTo(es[1..], Cons(RBracket, rest));
      ItemsBack(es[1..], done + [es[0]], rest, ClassItems(more, done + [es[0]], []));
      ItemBack(es[0], more);
      var none: seq<Word> := [];
      assert none + none == none;
      assert done + [es[0]] + es[1..] == done + es;
    }
  }

  lemma {:induction false} ClassBack(e: Re, rest: Tokens)
    requires e.Class? && Canonical(e)
    ensures ClassOf(PrintTo(e, PAtom, rest).tail) == Ok(e, rest, [])
  {
    ItemsBack(e.items, [], rest, ClassItems(TermsTo(e.items, Cons(RBracket, rest)), [], []));
    assert [] + e.items == e.items;
  }

  // ---- the whole parser ----

  /** Tokens that end an alternation: the end, or ')'. */
  predicate EndsAlt(t: Token) { t.Eof? || t.RParen? }

  predicate EndsSeq(t: Token) { EndsAlt(t) || t.Pipe? }

  /** What reading e's rendering must give: e, or an error when it goes past the cap. */
  function Back(e: Re, rest: Tokens, depth: nat, cap: nat): Parsed<Re> { if depth <= cap then Ok(e, rest, []) else Err }

  predicate Group(e: Re) { e.Alt? || (e.Seq? && e.terms != []) }

  /** A rendering as an atom starts with an atom. */
  lemma {:induction false} PrintHead(e: Re, rest: Tokens)
    requires Canonical(e)
    ensures var t := Head(PrintTo(e, PAtom, rest)); AtomStart(t) && !QuantStart(t)
  {
    if e.Repeat? { PrintHead(e.inner, RepeatTo(e, rest)); }
  }

  lemma {:induction false} GroupShape(e: Re, rest: Tokens)
    requires Group(e)
    ensures PrintTo(e, PAtom, rest) == Cons(LParen, PrintTo(e, PAlt, Cons(RParen, rest)))
    ensures Need(e, PAtom) == 1 + Need(e, PAlt)
  {
  }

  /** An atom in parentheses is what is between them. */
  lemma {:induction false} GroupOf(inner: Tokens, e: Re, rest: Tokens, n: nat, d: nat, cap: nat)
    requires ParseAlt(inner, d, cap) == Back(e, Cons(RParen, rest), n, cap)
    ensures ParseAtom(Cons(LParen, inner), d, cap) == Back(e, rest, n, cap)
  {
  }

  lemma {:induction false} EmptyBack(rest: Tokens, d: nat, cap: nat)
    requires Head(rest).RParen?
    ensures ParseAlt(rest, d, cap) == Back(Seq([]), rest, d + 1, cap)
  {
  }

  lemma {:induction false} LeafBack(e: Re, rest: Tokens, d: nat, cap: nat)
    requires Canonical(e) && !e.Repeat? && !e.Alt? && !e.Seq? && d <= cap
    ensures ParseAtom(PrintTo(e, PAtom, rest), d, cap) == Ok(e, rest, [])
  {
    if e.Class? { ClassBack(e, rest); }
  }

  lemma {:induction false} AtomBack(e: Re, rest: Tokens, d: nat, cap: nat)
    requires Canonical(e) && !e.Repeat? && d <= cap
    ensures ParseAtom(PrintTo(e, PAtom, rest), d, cap) == Back(e, rest, d + Need(e, PAtom), cap)
    decreases Size(e), 2
  {
    if Group(e) {
      GroupShape(e, rest);
      AltBack(e, Cons(RParen, rest), d, cap);
      GroupOf(PrintTo(e, PAlt, Cons(RParen, rest)), e, rest, d + 1 + Need(e, PAlt), d, cap);
    } else if e.Seq? {
      EmptyBack(Cons(RParen, rest), d, cap);
      GroupOf(Cons(RParen, rest), Seq([]), rest, d + 1, d, cap);
    } else {
      LeafBack(e, rest, d, cap);
    }
  }

  /** An atom and its quantifiers, read one after the other. */
  lemma {:induction false} TermOf(ts: Tokens, base: Re, quants: Tokens, n: nat, e: Re, rest: Tokens, m: nat, d: nat,
                                  cap: nat)
    requires ParseAtom(ts, d, cap) == Back(base, quants, n, cap)
    requires ParseQuants(quants, base, 0, d, cap) == Back(e, rest, m, cap)
    ensures ParseTerm(ts, d, cap) == Back(e, rest, Max(m, n), cap)
  {
  }

  lemma {:induction false} QuantsStop(rest: Tokens, e: Re, n: nat, d: nat, cap: nat)
    requires !QuantStart(Head(rest))
    ensures ParseQuants(rest, e, n, d, cap) == Back(e, rest, d + n, cap)
  {
  }

  lemma {:induction false} QuantsRead(e: Re, rest: Tokens, d: nat, cap: nat)
    requires Canonical(e) && !QuantStart(Head(rest))
    ensures ParseQuants(QuantsTo(e, rest), Base(e), 0, d, cap) == Back(e, rest, d + Quants(e), cap)
  {
    QuantsBack(e, rest, d, cap);
    QuantsStop(rest, e, Quants(e), d, cap);
  }

  lemma {:induction false} TermBack(e: Re, rest: Tokens, d: nat, cap: nat)
    requires Canonical(e) && d <= cap && !QuantStart(Head(rest))
    ensures ParseTerm(PrintTo(e, PAtom, rest), d, cap) == Back(e, rest, d + Need(e, PAtom), cap)
    decreases Size(e), 3
  {
    BaseTo(e, rest);
    AtomBack(Base(e), QuantsTo(e, rest), d, cap);
    QuantsRead(e, rest, d, cap);
    TermFromBase(e, rest, PrintTo(Base(e), PAtom, QuantsTo(e, rest)), d, cap);
  }

  lemma {:induction false} TermFromBase(e: Re, rest: Tokens, ts: Tokens, d: nat, cap: nat)
    requires ParseAtom(ts, d, cap) == Back(Base(e), QuantsTo(e, rest), d + Need(Base(e), PAtom), cap)
    requires ParseQuants(QuantsTo(e, rest), Base(e), 0, d, cap) == Back(e, rest, d + Quants(e), cap)
    requires Need(e, PAtom) == Max(Quants(e), Need(Base(e), PAtom))
    ensures ParseTerm(ts, d, cap) == Back(e, rest, d + Need(e, PAtom), cap)
  {
    TermOf(ts, Base(e), QuantsTo(e, rest), d + Need(Base(e), PAtom), e, rest, d + Quants(e), d, cap);
  }

  /** A term, then the rest of the sequence. */
  lemma {:induction false} SeqNext(ts: Tokens, e: Re, more: Tokens, n: nat, done: seq<Re>, d: nat, cap: nat)
    requires AtomStart(Head(ts)) && ParseTerm(ts, d, cap) == Back(e, more, n, cap)
    ensures ParseSeq(ts, done, [], d, cap) == if n > cap then Err else ParseSeq(more, done + [e], [], d, cap)
  {
    var none: seq<Word> := [];
    assert none + none == none;
  }

  lemma {:induction false} TermsBack(es: seq<Re>, done: seq<Re>, rest: Tokens, d: nat, cap: nat)
    requires AllCanonical(es) && d <= cap && EndsSeq(Head(rest))
    ensures ParseSeq(TermsTo(es, rest), done, [], d, cap) ==
            Back(Whole(done + es, false), rest, d + NeedAll(es, PAtom), cap)
    decreases SizeAll(es), 0
  {
    if es == [] {
      assert done + es == done;
    } else {
      var more := TermsTo(es[1..], rest);
      FirstTermBack(es[0], es[1..], done, rest, d, cap);
      TermsBack(es[1..], done + [es[0]], rest, d, cap);
      assert done + [es[0]] + es[1..] == done + es;
    }
  }

  lemma {:induction false} FirstTermBack(e: Re, es: seq<Re>, done: seq<Re>, rest: Tokens, d: nat, cap: nat)
    requires Canonical(e) && AllCanonical(es) && d <= cap && EndsSeq(Head(rest))
    ensures var more := TermsTo(es, rest);
            ParseSeq(PrintTo(e, PAtom, more), done, [], d, cap) ==
            if d + Need(e, PAtom) > cap then Err else ParseSeq(more, done + [e], [], d, cap)
    decreases Size(e), 4
  {
    var more := TermsTo(es, rest);
    PrintHead(e, more);
    MoreHead(es, rest);
    TermBack(e, more, d, cap);
    SeqNext(PrintTo(e, PAtom, more), e, more, d + Need(e, PAtom), done, d, cap);
  }

  lemma {:induction false} MoreHead(es: seq<Re>, rest: Tokens)
    requires AllCanonical(es) && EndsSeq(Head(rest))
    ensures !QuantStart(Head(TermsTo(es, rest)))
  {
    if es != [] { PrintHead(es[0], TermsTo(es[1..], rest)); }
  }

  lemma {:induction false} SameShape(e: Re, rest: Tokens)
    requires !(e.Seq? && e.terms != [])
    ensures PrintTo(e, PSeq, rest) == PrintTo(e, PAtom, rest) && Need(e, PSeq) == Need(e, PAtom)
  {
  }

  lemma {:induction false} SeqStops(ts: Tokens, e: Re, d: nat, cap: nat)
    requires EndsSeq(Head(ts))
    ensures ParseSeq(ts, [e], [], d, cap) == Ok(e, ts, [])
    ensures d <= cap ==> ParseSeq(ts, [], [], d, cap) == Ok(Seq([]), ts, [])
  {
  }

  lemma {:induction false} SeqOfOne(ts: Tokens, e: Re, rest: Tokens, n: nat, d: nat, cap: nat)
    requires AtomStart(Head(ts)) && EndsSeq(Head(rest)) && ParseTerm(ts, d, cap) == Back(e, rest, n, cap)
    ensures ParseSeq(ts, [], [], d, cap) == Back(e, rest, n, cap)
  {
    SeqNext(ts, e, rest, n, [], d, cap);
    SeqStops(rest, e, d, cap);
    assert [] + [e] == [e];
  }

  lemma {:induction false} OneTermBack(e: Re, rest: Tokens, d: nat, cap: nat)
    requires Canonical(e) && d <= cap && EndsSeq(Head(rest))
    ensures ParseSeq(PrintTo(e, PAtom, rest), [], [], d, cap) == Back(e, rest, d + Need(e, PAtom), cap)
    decreases Size(e), 4
  {
    PrintHead(e, rest);
    TermBack(e, rest, d, cap);
    SeqOfOne(PrintTo(e, PAtom, rest), e, rest, d + Need(e, PAtom), d, cap);
  }

  lemma {:induction false} SeqBack(e: Re, rest: Tokens, d: nat, cap: nat)
    requires Canonical(e) && d <= cap && EndsSeq(Head(rest))
    ensures ParseSeq(PrintTo(e, PSeq, rest), [], [], d, cap) == Back(e, rest, d + Need(e, PSeq), cap)
    decreases Size(e), if e.Seq? && e.terms != [] then 0 else 5
  {
    if e.Seq? && e.terms != [] {
      TermsBack(e.terms, [], rest, d, cap);
      SequenceShape(e, rest);
    } else {
      SameShape(e, rest);
      OneTermBack(e, rest, d, cap);
    }
  }

  lemma {:induction false} SequenceShape(e: Re, rest: Tokens)
    requires e.Seq? && e.terms != [] && Canonical(e)
    ensures PrintTo(e, PSeq, rest) == TermsTo(e.terms, rest) && Need(e, PSeq) == NeedAll(e.terms, PAtom)
    ensures Whole([] + e.terms, false) == e
  {
    assert [] + e.terms == e.terms;
  }

  lemma {:induction false} BranchesHead(es: seq<Re>, rest: Tokens)
    requires EndsAlt(Head(rest))
    ensures EndsSeq(Head(BranchesTo(es, rest)))
  {
  }

  /** A branch, then the rest of the alternation. */
  lemma {:induction false} AltsNext(ts: Tokens, e: Re, more: Tokens, n: nat, done: seq<Re>, d: nat, cap: nat)
    requires ParseSeq(ts, [], [], d, cap) == Back(e, more, n, cap)
    ensures ParseAlts(Cons(Pipe, ts), done, [], d, cap) == if n > cap then Err
            else ParseAlts(more, done + [e], [], d, cap)
  {
    var none: seq<Word> := [];
    assert none + none == none;
  }

  lemma {:induction false} AltsBack(es: seq<Re>, done: seq<Re>, rest: Tokens, d: nat, cap: nat)
    requires AllCanonical(es) && d <= cap && EndsAlt(Head(rest))
    ensures ParseAlts(BranchesTo(es, rest), done, [], d, cap) ==
            Back(Whole(done + es, true), rest, d + NeedAll(es, PSeq), cap)
    decreases SizeAll(es), 0
  {
    if es == [] {
      assert done + es == done;
    } else {
      var more := BranchesTo(es[1..], rest);
      BranchesHead(es[1..], rest);
      SeqBack(es[0], more, d, cap);
      AltsNext(PrintTo(es[0], PSeq, more), es[0], more, d + Need(es[0], PSeq), done, d, cap);
      AltsBack(es[1..], done + [es[0]], rest, d, cap);
      assert done + [es[0]] + es[1..] == done + es;
    }
  }

  lemma {:induction false} AltOf(ts: Tokens, first: Re, more: Tokens, n: nat, d: nat, cap: nat)
    requires d + 1 <= cap && ParseSeq(ts, [], [], d + 1, cap) == Back(first, more, n, cap)
    ensures ParseAlt(ts, d, cap) == if n > cap then Err else ParseAlts(more, [first], [], d + 1, cap)
  {
  }

  lemma {:induction false} AltsStop(ts: Tokens, e: Re, d: nat, cap: nat)
    requires EndsAlt(Head(ts))
    ensures ParseAlts(ts, [e], [], d, cap) == Ok(e, ts, [])
  {
  }

  lemma {:induction false} AlternationBack(e: Re, rest: Tokens, d: nat, cap: nat)
    requires Canonical(e) && e.Alt? && EndsAlt(Head(rest)) && d + 1 <= cap
    ensures ParseAlt(PrintTo(e, PAlt, rest), d, cap) == Back(e, rest, d + 1 + Need(e, PAlt), cap)
    decreases Size(e), 0
  {
    var es := e.alts;
    var more := BranchesTo(es[1..], rest);
    assert Size(e) == 2 + Size(es[0]) + SizeAll(es[1..]);
    BranchesHead(es[1..], rest);
    SeqBack(es[0], more, d + 1, cap);
    AltOf(PrintTo(es[0], PSeq, more), es[0], more, d + 1 + Need(es[0], PSeq), d, cap);
    AltsBack(es[1..], [es[0]], rest, d + 1, cap);
    assert [es[0]] + es[1..] == es;
  }

  lemma {:induction false} AltBack(e: Re, rest: Tokens, d: nat, cap: nat)
    requires Canonical(e) && EndsAlt(Head(rest))
    ensures ParseAlt(PrintTo(e, PAlt, rest), d, cap) == Back(e, rest, d + 1 + Need(e, PAlt), cap)
    decreases Size(e), if Group(e) then 1 else 6
  {
    if d + 1 > cap {
    } else if e.Alt? {
      AlternationBack(e, rest, d, cap);
    } else {
      SeqBack(e, rest, d + 1, cap);
      OneBranchBack(e, rest, d, cap);
    }
  }

  lemma {:induction false} OneBranchBack(e: Re, rest: Tokens, d: nat, cap: nat)
    requires Canonical(e) && !e.Alt? && EndsAlt(Head(rest)) && d + 1 <= cap
    requires ParseSeq(PrintTo(e, PSeq, rest), [], [], d + 1, cap) == Back(e, rest, d + 1 + Need(e, PSeq), cap)
    ensures ParseAlt(PrintTo(e, PAlt, rest), d, cap) == Back(e, rest, d + 1 + Need(e, PAlt), cap)
  {
    PlainAlt(e, rest);
    AltOf(PrintTo(e, PSeq, rest), e, rest, d + 1 + Need(e, PSeq), d, cap);
    AltsStop(rest, e, d + 1, cap);
  }

  lemma {:induction false} PlainAlt(e: Re, rest: Tokens)
    requires !e.Alt?
    ensures PrintTo(e, PAlt, rest) == PrintTo(e, PSeq, rest) && Need(e, PAlt) == Need(e, PSeq)
  {
  }

  // ---- renderings alone ----

  lemma {:induction false} ConsListed(t: Token, ts: seq<Token>)
    ensures Listed([t] + ts) == Cons(t, Listed(ts))
  {
    assert ([t] + ts)[1..] == ts;
  }

  lemma {:induction false} Listed2(t: Token, u: Token, ts: seq<Token>)
    ensures Listed([t, u] + ts) == Cons(t, Cons(u, Listed(ts)))
  {
    assert [t, u] + ts == [t] + ([u] + ts);
    ConsListed(t, [u] + ts);
    ConsListed(u, ts);
  }

  lemma {:induction false} BoundsListed(min: int, max: int, rest: seq<Token>)
    ensures Listed(PrintBounds(min, max) + rest) == BoundsTo(min, max, Listed(rest))
  {
    var lo, close := TWord(Number(Abs(min))), [RBrace] + rest;
    ConsListed(RBrace, rest);
    var upper := if max == min then close else if max < 0 then [Comma] + close else [Comma, TWord(Number(max))] + close;
    if max != min {
      if max < 0 { ConsListed(Comma, close); } else { Listed2(Comma, TWord(Number(max)), close); }
    }
    ConsListed(lo, upper);
    assert PrintBounds(min, max) + rest == [lo] + upper;
  }

  lemma {:induction false} OpListed(op: RepeatOp, min: int, max: int, rest: seq<Token>)
    ensures Listed(PrintOp(op, min, max) + rest) == OpTo(op, min, max, Listed(rest))
  {
    if op.Range? {
      var bounds := PrintBounds(min, max) + rest;
      BoundsListed(min, max, rest);
      assert PrintOp(op, min, max) + rest == [LBrace] + bounds;
      ConsListed(LBrace, bounds);
    } else {
      ConsListed(PrintOp(op, min, max)[0], rest);
    }
  }

  lemma {:induction false} RepeatListed(e: Re, rest: seq<Token>)
    requires e.Repeat?
    ensures Listed(PrintRepeat(e) + rest) == RepeatTo(e, Listed(rest))
  {
    var op := PrintOp(e.op, e.min, e.max) + rest;
    OpListed(e.op, e.min, e.max, rest);
    if e.same {
      ConsListed(Tilde, op);
      assert PrintRepeat(e) + rest == [Tilde] + op;
    } else {
      assert PrintRepeat(e) + rest == op;
    }
  }

  /** PrintTo is the rendering in front of the rest. */
  lemma {:induction false} PrintListed(e: Re, want: Prec, rest: seq<Token>)
    ensures Listed(Print(e, want) + rest) == PrintTo(e, want, Listed(rest))
    decreases e, 0
  {
    match e
    case Alt(es) =>
      if want == PAlt { AltsListed(es, rest); } else {
        AltsListed(es, [RParen] + rest);
        ParenListed(PrintAlts(es), rest);
      }
    case Seq(es) =>
      if es == [] { Listed2(LParen, RParen, rest); }
      else if want == PAtom {
        TermsListed(es, [RParen] + rest);
        ParenListed(PrintTerms(es), rest);
      } else {
        TermsListed(es, rest);
      }
    case Repeat(x, _, _, _, _) =>
      RepeatListed(e, rest);
      PrintListed(x, PAtom, PrintRepeat(e) + rest);
      assert Print(e, want) + rest == Print(x, PAtom) + (PrintRepeat(e) + rest);
    case Class(negated, es) => ClassListed(e, rest);
    case AsRange(lo, hi) =>
      Listed2(Dash, TWord(AsNumber(hi)), rest);
      ConsListed(TWord(AsNumber(lo)), [Dash, TWord(AsNumber(hi))] + rest);
      assert Print(e, want) + rest == [TWord(AsNumber(lo))] + ([Dash, TWord(AsNumber(hi))] + rest);
    case _ => ConsListed(Print(e, want)[0], rest);
  }

  lemma {:induction false} ParenListed(inner: seq<Token>, rest: seq<Token>)
    ensures Listed(Paren(inner, true) + rest) == Cons(LParen, Listed(inner + ([RParen] + rest)))
    ensures Listed([RParen] + rest) == Cons(RParen, Listed(rest))
  {
    ConsListed(RParen, rest);
    ConsListed(LParen, inner + ([RParen] + rest));
    assert Paren(inner, true) + rest == [LParen] + (inner + ([RParen] + rest));
  }

  lemma {:induction false} ClassListed(e: Re, rest: seq<Token>)
    requires e.Class?
    ensures Listed(Print(e, PAtom) + rest) == PrintTo(e, PAtom, Listed(rest))
    decreases e.items, 1
  {
    var close := [RBracket] + rest;
    ConsListed(RBracket, rest);
    TermsListed(e.items, close);
    ClassParts(e, rest, PrintTerms(e.items) + close);
  }

  lemma {:induction false} ClassParts(e: Re, rest: seq<Token>, items: seq<Token>)
    requires e.Class? && items == PrintTerms(e.items) + ([RBracket] + rest)
    requires Listed(items) == TermsTo(e.items, Cons(RBracket, Listed(rest)))
    ensures Listed(Print(e, PAtom) + rest) == PrintTo(e, PAtom, Listed(rest))
  {
    var body := if e.negated then [Caret] + items else items;
    if e.negated { ConsListed(Caret, items); }
    ConsListed(LBracket, body);
    assert Print(e, PAtom) + rest == [LBracket] + body;
  }

  lemma {:induction false} TermsListed(es: seq<Re>, rest: seq<Token>)
    ensures Listed(PrintTerms(es) + rest) == TermsTo(es, Listed(rest))
    decreases es, 0
  {
    if es == [] {
      assert PrintTerms(es) + rest == rest;
    } else {
      TermsListed(es[1..], rest);
      PrintListed(es[0], PAtom, PrintTerms(es[1..]) + rest);
      assert PrintTerms(es) + rest == Print(es[0], PAtom) + (PrintTerms(es[1..]) + rest);
    }
  }

  lemma {:induction false} AltsListed(es: seq<Re>, rest: seq<Token>)
    ensures Listed(PrintAlts(es) + rest) == AltsTo(es, Listed(rest))
    decreases es, 0
  {
    if es == [] {
      assert PrintAlts(es) + rest == rest;
    } else {
      var more := if |es| == 1 then rest else [Pipe] + (PrintAlts(es[1..]) + rest);
      if |es| > 1 {
        AltsListed(es[1..], rest);
        ConsListed(Pipe, PrintAlts(es[1..]) + rest);
      }
      assert Listed(more) == BranchesTo(es[1..], Listed(rest));
      PrintListed(es[0], PSeq, more);
      assert PrintAlts(es) + rest == Print(es[0], PSeq) + more;
    }
  }

  /** The round trip: the rendering of a tree the parser can make parses back to that tree, with no plain
      AS number in it, exactly when it nests no deeper than the cap; else it is an error. */
  lemma {:induction false} RoundTripIff(e: Re, cap: nat)
    requires Canonical(e)
    ensures Parse(Listed(Print(e, PAlt)), cap) == Back(e, Nil, 1 + Need(e, PAlt), cap)
  {
    PrintListed(e, PAlt, []);
    assert Print(e, PAlt) + [] == Print(e, PAlt);
    var ts := PrintTo(e, PAlt, Nil);
    AltBack(e, Nil, 0, cap);
    PrintSome(e);
  }

  lemma {:induction false} PrintSome(e: Re)
    requires Canonical(e)
    ensures !PrintTo(e, PAlt, Nil).Nil?
  {
    if e.Alt? {
      assert PrintTo(e, PAlt, Nil) == PrintTo(e.alts[0], PSeq, BranchesTo(e.alts[1..], Nil));
      SomeTo(e.alts[0], BranchesTo(e.alts[1..], Nil));
    } else {
      SomeTo(e, Nil);
      assert PrintTo(e, PAlt, Nil) == PrintTo(e, PSeq, Nil);
    }
  }

  lemma {:induction false} SomeTo(e: Re, rest: Tokens)
    requires Canonical(e)
    ensures !PrintTo(e, PSeq, rest).Nil?
  {
    if e.Seq? && e.terms != [] {
      PrintHead(e.terms[0], TermsTo(e.terms[1..], rest));
    } else {
      SameShape(e, rest);
      PrintHead(e, rest);
    }
  }

  // ---- every tree the parser makes is canonical ----

  lemma {:induction false} AllCanonicalAppend(es: seq<Re>, e: Re)
    requires AllCanonical(es) && Canonical(e)
    ensures AllCanonical(es + [e])
    decreases |es|
  {
    if es == [] {
      assert (es + [e])[1..] == [];
    } else {
      AllCanonicalAppend(es[1..], e);
      assert (es + [e])[1..] == es[1..] + [e];
    }
  }

  lemma {:induction false} WholeCanonical(es: seq<Re>, alt: bool)
    requires AllCanonical(es) && (alt ==> es != [])
    ensures Canonical(Whole(es, alt))
  {
  }

  lemma {:induction false} ItemsCanonical(ts: Tokens, items: seq<Re>, bare: seq<Word>)
    requires forall k :: 0 <= k < |items| ==> ItemOk(items[k])
    ensures var r := ClassItems(ts, items, bare); r.Ok? ==> forall k :: 0 <= k < |r.value| ==> ItemOk(r.value[k])
    decreases Len(ts)
  {
    match Head(ts)
    case Dot => ItemsCanonical(ts.tail, items + [Any], bare);
    case TWord(w) =>
      var item := ClassItem(w, ts.tail);
      if item.Ok? { ItemsCanonical(item.rest, items + [item.value], bare + item.bare); }
    case _ =>
  }

  lemma {:induction false} ClassCanonical(ts: Tokens)
    ensures ClassOf(ts).Ok? ==> Canonical(ClassOf(ts).value)
  {
    var inner := if Head(ts).Caret? then ts.tail else ts;
    ItemsCanonical(inner, [], []);
    var items := ClassItems(inner, [], []);
    if ClassOf(ts).Ok? {
      assert ClassOf(ts).value == Class(Head(ts).Caret?, items.value);
      assert forall k :: 0 <= k < |items.value| ==> ItemOk(items.value[k]);
    }
  }

  lemma {:induction false} QuantCanonical(ts: Tokens)
    ensures var q := QuantOf(ts); q.Ok? ==> QuantOk(q.value.op, q.value.min, q.value.max, q.value.same)
  {
  }

  lemma {:induction false} QuantsCanonical(ts: Tokens, atom: Re, count: nat, d: nat, cap: nat)
    requires Canonical(atom)
    ensures var r := ParseQuants(ts, atom, count, d, cap); r.Ok? ==> Canonical(r.value)
    decreases Len(ts)
  {
    if d + count <= cap && QuantStart(Head(ts)) {
      var q := QuantOf(ts);
      QuantCanonical(ts);
      if q.Ok? && !atom.Start? && !atom.End? {
        QuantsCanonical(q.rest, Repeat(atom, q.value.op, q.value.min, q.value.max, q.value.same), count + 1, d, cap);
      }
    }
  }

  lemma {:induction false} AtomCanonical(ts: Tokens, d: nat, cap: nat)
    ensures var r := ParseAtom(ts, d, cap); r.Ok? ==> Canonical(r.value)
    decreases Len(ts), 1
  {
    match Head(ts)
    case LParen => AltCanonical(ts.tail, d, cap);
    case LBracket => ClassCanonical(ts.tail);
    case _ =>
  }

  lemma {:induction false} TermCanonical(ts: Tokens, d: nat, cap: nat)
    ensures var r := ParseTerm(ts, d, cap); r.Ok? ==> Canonical(r.value)
    decreases Len(ts), 2
  {
    AtomCanonical(ts, d, cap);
    var a := ParseAtom(ts, d, cap);
    if a.Ok? { QuantsCanonical(a.rest, a.value, 0, d, cap); }
  }

  lemma {:induction false} SeqCanonical(ts: Tokens, terms: seq<Re>, bare: seq<Word>, d: nat, cap: nat)
    requires AllCanonical(terms)
    ensures var r := ParseSeq(ts, terms, bare, d, cap); r.Ok? ==> Canonical(r.value)
    decreases Len(ts), 3
  {
    if AtomStart(Head(ts)) {
      TermCanonical(ts, d, cap);
      var t := ParseTerm(ts, d, cap);
      if t.Ok? {
        AllCanonicalAppend(terms, t.value);
        SeqCanonical(t.rest, terms + [t.value], bare + t.bare, d, cap);
      }
    } else {
      WholeCanonical(terms, false);
    }
  }

  lemma {:induction false} AltsCanonical(ts: Tokens, alts: seq<Re>, bare: seq<Word>, d: nat, cap: nat)
    requires AllCanonical(alts) && alts != []
    ensures var r := ParseAlts(ts, alts, bare, d, cap); r.Ok? ==> Canonical(r.value)
    decreases Len(ts), 4
  {
    if Head(ts).Pipe? {
      SeqCanonical(ts.tail, [], [], d, cap);
      var s := ParseSeq(ts.tail, [], [], d, cap);
      if s.Ok? {
        AllCanonicalAppend(alts, s.value);
        AltsCanonical(s.rest, alts + [s.value], bare + s.bare, d, cap);
      }
    } else {
      WholeCanonical(alts, true);
    }
  }

  lemma {:induction false} AltCanonical(ts: Tokens, d: nat, cap: nat)
    ensures var r := ParseAlt(ts, d, cap); r.Ok? ==> Canonical(r.value)
    decreases Len(ts), 5
  {
    if d + 1 <= cap {
      SeqCanonical(ts, [], [], d + 1, cap);
      var first := ParseSeq(ts, [], [], d + 1, cap);
      if first.Ok? { AltsCanonical(first.rest, [first.value], first.bare, d + 1, cap); }
    }
  }

  /** Whatever parses, its tree renders to tokens that parse to it again, exactly when these fit the cap. */
  lemma {:induction false} ParsePrintParse(ts: Tokens, cap: nat)
    requires Parse(ts, cap).Ok?
    ensures var e := Parse(ts, cap).value; Parse(Listed(Print(e, PAlt)), cap) == Back(e, Nil, 1 + Need(e, PAlt), cap)
  {
    AltCanonical(ts, 0, cap);
    RoundTripIff(Parse(ts, cap).value, cap);
  }

  // ---- the rendering of a tree can nest deeper than the text it came from ----

  /** n stars. */
  function Stars(n: nat, rest: Tokens): Tokens { if n == 0 then rest else Cons(StarT, Stars(n - 1, rest)) }

  function Starred(e: Re, n: nat): Re
    decreases n
  {
    if n == 0 then e else Starred(Repeat(e, Star, 0, -1, false), n - 1)
  }

  lemma {:induction false} StarsParse(n: nat, atom: Re, count: nat, d: nat, cap: nat)
    requires d + count + n <= cap && !atom.Start? && !atom.End?
    ensures ParseQuants(Stars(n, Nil), atom, count, d, cap) == Ok(Starred(atom, n), Nil, [])
    decreases n
  {
    if n > 0 { StarsParse(n - 1, Repeat(atom, Star, 0, -1, false), count + 1, d, cap); }
  }

  lemma {:induction false} StarredNeed(e: Re, n: nat)
    ensures Quants(Starred(e, n)) == Quants(e) + n
    decreases n
  {
    if n > 0 { StarredNeed(Repeat(e, Star, 0, -1, false), n - 1); }
  }

  /** "(AS1 *) * ... *", with n stars outside the group. */
  function StarText(n: nat): Tokens { Cons(LParen, Cons(TWord(AsNumber(1)), Cons(StarT, Cons(RParen, Stars(n, Nil))))) }

  lemma {:induction false} StarTextTerm(after: Tokens, e: Re, cap: nat)
    requires cap >= 3 && ParseQuants(after, Repeat(As(1), Star, 0, -1, false), 0, 1, cap) == Ok(e, Nil, [])
    ensures ParseTerm(Cons(LParen, Cons(TWord(AsNumber(1)), Cons(StarT, Cons(RParen, after)))), 1, cap) ==
            Ok(e, Nil, [])
  {
    var one, inner := Repeat(As(1), Star, 0, -1, false), Cons(TWord(AsNumber(1)), Cons(StarT, Cons(RParen, after)));
    GroupOfOne(after, cap);
    GroupOf(inner, one, after, 2, 1, cap);
    TermOf(Cons(LParen, inner), one, after, 2, e, Nil, 1, 1, cap);
  }

  lemma {:induction false} TermAlone(ts: Tokens, e: Re, cap: nat)
    requires cap >= 1 && AtomStart(Head(ts)) && ParseTerm(ts, 1, cap) == Ok(e, Nil, [])
    ensures Parse(ts, cap) == Ok(e, Nil, [])
  {
    SeqOfOne(ts, e, Nil, 1, 1, cap);
    AltOf(ts, e, Nil, 1, 0, cap);
    AltsStop(Nil, e, 1, cap);
  }

  lemma {:induction false} StarTextParse(cap: nat)
    requires cap >= 3
    ensures Parse(StarText(cap - 1), cap) == Ok(Starred(Repeat(As(1), Star, 0, -1, false), cap - 1), Nil, [])
  {
    var one, after := Repeat(As(1), Star, 0, -1, false), Stars(cap - 1, Nil);
    StarsParse(cap - 1, one, 0, 1, cap);
    StarTextTerm(after, Starred(one, cap - 1), cap);
    TermAlone(StarText(cap - 1), Starred(one, cap - 1), cap);
  }

  /** With cap - 1 stars outside, such a text fits the cap: its group is one level and one star deep. Its
      tree has cap stars in a row, so its rendering, "AS1 * ... *", does not. */
  lemma {:induction false} RenderingTooDeep(cap: nat)
    requires cap >= 3
    ensures Parse(StarText(cap - 1), cap).Ok?
    ensures Parse(Listed(Print(Parse(StarText(cap - 1), cap).value, PAlt)), cap).Err?
  {
    var one := Repeat(As(1), Star, 0, -1, false);
    var e := Starred(one, cap - 1);
    StarTextParse(cap);
    StarredNeed(one, cap - 1);
    StarredRepeat(one, cap - 1);
    assert Need(e, PAlt) >= cap;
    ParsePrintParse(StarText(cap - 1), cap);
  }

  lemma {:induction false} StarredRepeat(e: Re, n: nat)
    requires e.Repeat?
    ensures Starred(e, n).Repeat?
    decreases n
  {
    if n > 0 { StarredRepeat(Repeat(e, Star, 0, -1, false), n - 1); }
  }

  lemma {:induction false} GroupOfOne(after: Tokens, cap: nat)
    requires cap >= 3
    ensures ParseAlt(Cons(TWord(AsNumber(1)), Cons(StarT, Cons(RParen, after))), 1, cap) ==
            Ok(Repeat(As(1), Star, 0, -1, false), Cons(RParen, after), [])
  {
    var e, rest := Repeat(As(1), Star, 0, -1, false), Cons(RParen, after);
    assert PrintTo(e, PAlt, rest) == Cons(TWord(AsNumber(1)), Cons(StarT, rest));
    AltBack(e, rest, 1, cap);
    assert Need(e, PAlt) == 1;
  }
}
