/** The grammar of AS-path regexps (policy/regexp.go:252-528): the parser accepts exactly its sentences and gives
    each its tree. */
module RegexpGrammar {
  import opened Collections
  import opened Prefixes
  import opened Regexps
  import opened RegexpSyntax

  // ---- sentences ----

  datatype Bounds = StarB | PlusB | QuestB | Exactly(m: nat) | AtLeast(m: nat) | Between(m: nat, n: nat)

  datatype Quantifier = Quantifier(same: bool, bounds: Bounds)

  datatype Item = DotItem | WordItem(word: Word) | SpanItem(lo: Word, hi: Word)

  datatype Atom =
    | WordAtom(word: Word) | DotAtom | CaretAtom | DollarAtom | GroupAtom(branches: Branches)
    | ClassAtom(negated: bool, items: seq<Item>)

  datatype Term = Term(atom: Atom, quants: seq<Quantifier>)

  datatype Terms = NoTerms | ThenTerm(head: Term, tail: Terms)

  datatype Branches = LastBranch(terms: Terms) | OrBranch(terms: Terms, others: Branches)

  // ---- the sentences that mean something ----

  predicate AsnWord(w: Word) { (w.Number? || w.AsNumber?) && w.n <= MAX_ASN }

  predicate WordOk(w: Word) { AsnWord(w) || w.PeerWord? || w.SetWord? || w.TemplateWord? }

  predicate SpanOk(lo: Word, hi: Word) { AsnWord(lo) && AsnWord(hi) && lo.n <= hi.n }

  predicate ItemOk(x: Item) {
    match x
    case DotItem => true
    case WordItem(w) => if w.Joined? then SpanOk(w.lo, w.hi) else WordOk(w)
    case SpanItem(lo, hi) => SpanOk(lo, hi)
  }

  predicate QuantifierOk(q: Quantifier) {
    match q.bounds
    case QuestB => !q.same
    case Exactly(m) => m <= MAX_INT
    case AtLeast(m) => m <= MAX_INT
    case Between(m, n) => m <= n <= MAX_INT
    case _ => true
  }

  predicate AtomOk(a: Atom) {
    match a
    case WordAtom(w) => WordOk(w)
    case GroupAtom(b) => BranchesOk(b)
    case ClassAtom(_, items) => items != [] && forall i :: 0 <= i < |items| ==> ItemOk(items[i])
    case _ => true
  }

  predicate QuantifiersOk(qs: seq<Quantifier>) { forall i :: 0 <= i < |qs| ==> QuantifierOk(qs[i]) }

  /** An anchor, in parentheses or not. */
  predicate Anchor(a: Atom) {
    a.CaretAtom? || a.DollarAtom? || (a.GroupAtom? && a.branches.LastBranch? && OneAnchor(a.branches.terms))
  }

  predicate OneAnchor(ts: Terms) { ts.ThenTerm? && ts.tail.NoTerms? && ts.head.quants == [] && Anchor(ts.head.atom) }

  /** No quantifier is on an anchor. */
  predicate TermOk(t: Term) { AtomOk(t.atom) && QuantifiersOk(t.quants) && (Anchor(t.atom) ==> t.quants == []) }

  predicate TermsOk(ts: Terms) { ts.ThenTerm? ==> TermOk(ts.head) && TermsOk(ts.tail) }

  predicate BranchesOk(b: Branches) { TermsOk(b.terms) && (b.OrBranch? ==> BranchesOk(b.others)) }

  // ---- how they are written ----

  function WriteBounds(b: Bounds, rest: Tokens): Tokens {
    match b
    case StarB => Cons(StarT, rest)
    case PlusB => Cons(PlusT, rest)
    case QuestB => Cons(QuestT, rest)
    case Exactly(m) => Cons(LBrace, Cons(TWord(Number(m)), Cons(RBrace, rest)))
    case AtLeast(m) => Cons(LBrace, Cons(TWord(Number(m)), Cons(Comma, Cons(RBrace, rest))))
    case Between(m, n) => Cons(LBrace, Cons(TWord(Number(m)), Cons(Comma, Cons(TWord(Number(n)), Cons(RBrace, rest)))))
  }

  function WriteQuantifier(q: Quantifier, rest: Tokens): Tokens {
    if q.same then Cons(Tilde, WriteBounds(q.bounds, rest)) else WriteBounds(q.bounds, rest)
  }

  function WriteQuantifiers(qs: seq<Quantifier>, rest: Tokens): Tokens {
    if qs == [] then rest else WriteQuantifier(qs[0], WriteQuantifiers(qs[1..], rest))
  }

  function WriteItem(x: Item, rest: Tokens): Tokens {
    match x
    case DotItem => Cons(Dot, rest)
    case WordItem(w) => Cons(TWord(w), rest)
    case SpanItem(lo, hi) => Cons(TWord(lo), Cons(Dash, Cons(TWord(hi), rest)))
  }

  function WriteItems(items: seq<Item>, rest: Tokens): Tokens {
    if items == [] then rest else WriteItem(items[0], WriteItems(items[1..], rest))
  }

  function WriteClass(negated: bool, items: seq<Item>, rest: Tokens): Tokens {
    var inside := WriteItems(items, Cons(RBracket, rest));
    if negated then Cons(Caret, inside) else inside
  }

  function WriteAtom(a: Atom, rest: Tokens): Tokens
    decreases a
  {
    match a
    case WordAtom(w) => Cons(TWord(w), rest)
    case DotAtom => Cons(Dot, rest)
    case CaretAtom => Cons(Caret, rest)
    case DollarAtom => Cons(Dollar, rest)
    case GroupAtom(b) => Cons(LParen, WriteBranches(b, Cons(RParen, rest)))
    case ClassAtom(negated, items) => Cons(LBracket, WriteClass(negated, items, rest))
  }

  function WriteTerm(t: Term, rest: Tokens): Tokens
    decreases t
  {
    WriteAtom(t.atom, WriteQuantifiers(t.quants, rest))
  }

  function WriteTerms(ts: Terms, rest: Tokens): Tokens
    decreases ts
  {
    if ts.NoTerms? then rest else WriteTerm(ts.head, WriteTerms(ts.tail, rest))
  }

  function WriteBranches(b: Branches, rest: Tokens): Tokens
    decreases b
  {
    WriteTerms(b.terms, if b.LastBranch? then rest else Cons(Pipe, WriteBranches(b.others, rest)))
  }

  // ---- what they mean ----

  function WordTree(w: Word): Re {
    match w
    case Number(n) => As(n)
    case AsNumber(n) => As(n)
    case SetWord(name) => SetOf(name)
    case TemplateWord(t) => TemplateOf(t)
    case _ => Peer
  }

  function SpanTree(lo: Word, hi: Word): Re
    requires SpanOk(lo, hi)
  {
    AsRange(lo.n, hi.n)
  }

  function ItemTree(x: Item): Re
    requires ItemOk(x)
  {
    match x
    case DotItem => Any
    case WordItem(w) => if w.Joined? then SpanTree(w.lo, w.hi) else WordTree(w)
    case SpanItem(lo, hi) => SpanTree(lo, hi)
  }

  function ItemTrees(items: seq<Item>): (es: seq<Re>)
    requires forall i :: 0 <= i < |items| ==> ItemOk(items[i])
    ensures |es| == |items|
  {
    if items == [] then [] else [ItemTree(items[0])] + ItemTrees(items[1..])
  }

  /** e repeated as q says. */
  function Repeated(e: Re, q: Quantifier): Re {
    match q.bounds
    case StarB => Repeat(e, Star, 0, -1, q.same)
    case PlusB => Repeat(e, Plus, 1, -1, q.same)
    case QuestB => Repeat(e, Quest, 0, 1, q.same)
    case Exactly(m) => Repeat(e, Range, m, m, q.same)
    case AtLeast(m) => Repeat(e, Range, m, -1, q.same)
    case Between(m, n) => Repeat(e, Range, m, n, q.same)
  }

  /** Quantifiers one on another, the first innermost. */
  function AllRepeated(e: Re, qs: seq<Quantifier>): Re
    decreases |qs|
  {
    if qs == [] then e else AllRepeated(Repeated(e, qs[0]), qs[1..])
  }

  function AtomTree(a: Atom): Re
    requires AtomOk(a)
    decreases a, 0
  {
    match a
    case WordAtom(w) => WordTree(w)
    case DotAtom => Any
    case CaretAtom => Start
    case DollarAtom => End
    case GroupAtom(b) => Tree(b)
    case ClassAtom(negated, items) => Class(negated, ItemTrees(items))
  }

  function TermTree(t: Term): Re
    requires TermOk(t)
    decreases t, 0
  {
    AllRepeated(AtomTree(t.atom), t.quants)
  }

  function TermTrees(ts: Terms): seq<Re>
    requires TermsOk(ts)
    decreases ts, 0
  {
    if ts.NoTerms? then [] else [TermTree(ts.head)] + TermTrees(ts.tail)
  }

  /** A branch of one term is that term. */
  function BranchTree(ts: Terms): Re
    requires TermsOk(ts)
    decreases ts, 1
  {
    var es := TermTrees(ts);
    if |es| == 1 then es[0] else Seq(es)
  }

  function BranchTrees(b: Branches): (es: seq<Re>)
    requires BranchesOk(b)
    ensures es != []
    decreases b, 0
  {
    [BranchTree(b.terms)] + if b.LastBranch? then [] else BranchTrees(b.others)
  }

  /** An alternation of one branch is that branch. */
  function Tree(b: Branches): Re
    requires BranchesOk(b)
    decreases b, 1
  {
    var es := BranchTrees(b);
    if |es| == 1 then es[0] else Alt(es)
  }

  // ---- how deep they nest ----

  function AtomDepth(a: Atom): nat
    decreases a, 0
  {
    if a.GroupAtom? then Depth(a.branches) else 0
  }

  function TermDepth(t: Term): nat
    decreases t, 0
  {
    Max(AtomDepth(t.atom), |t.quants|)
  }

  function TermsDepth(ts: Terms): nat
    decreases ts, 0
  {
    if ts.NoTerms? then 0 else Max(TermDepth(ts.head), TermsDepth(ts.tail))
  }

  function BranchesDepth(b: Branches): nat
    decreases b, 0
  {
    if b.LastBranch? then TermsDepth(b.terms) else Max(TermsDepth(b.terms), BranchesDepth(b.others))
  }

  /** One for the whole and one for each group; a quantifier is one more within its term. */
  function Depth(b: Branches): nat
    decreases b, 1
  {
    1 + BranchesDepth(b)
  }

  // ---- every sentence parses to its tree ----

  /** A parse of value, if it is no deeper than the cap. */
  ghost predicate Reads<T>(r: Parsed<T>, value: T, rest: Tokens, depth: nat, cap: nat) {
    if depth > cap then r.Err? else r.Ok? && r.value == value && r.rest == rest
  }

  predicate EndsTerm(t: Token) { !QuantStart(t) }

  predicate EndsBranch(t: Token) { EndsTerm(t) && !AtomStart(t) }

  predicate EndsAll(t: Token) { EndsBranch(t) && !t.Pipe? }

  function Op(q: Quantifier): Quant {
    var e := Repeated(Any, q);
    Quant(e.op, e.min, e.max, e.same)
  }

  lemma {:induction false} QuantifierReads(q: Quantifier, rest: Tokens)
    requires QuantifierOk(q)
    ensures var r := QuantOf(WriteQuantifier(q, rest)); r.Ok? && r.value == Op(q) && r.rest == rest
    ensures QuantStart(Head(WriteQuantifier(q, rest)))
  {
    var ts := WriteBounds(q.bounds, rest);
    if q.bounds.Exactly? || q.bounds.AtLeast? || q.bounds.Between? { BoundsRead(q.bounds, rest); }
  }

  lemma {:induction false} BoundsRead(b: Bounds, rest: Tokens)
    requires (b.Exactly? || b.AtLeast? || b.Between?) && QuantifierOk(Quantifier(false, b))
    ensures var r, e := RangeOf(WriteBounds(b, rest).tail), Repeated(Any, Quantifier(false, b));
            r.Ok? && r.value == (e.min, e.max) && r.rest == rest
  {
  }

  lemma {:induction false} QuantifiersRead(qs: seq<Quantifier>, e: Re, rest: Tokens, n: nat, d: nat, cap: nat)
    requires QuantifiersOk(qs) && EndsTerm(Head(rest)) && (e.Start? || e.End? ==> qs == [])
    ensures Reads(ParseQuants(WriteQuantifiers(qs, rest), e, n, d, cap), AllRepeated(e, qs), rest, d + n + |qs|, cap)
    decreases |qs|
  {
    if qs != [] {
      var more := WriteQuantifiers(qs[1..], rest);
      QuantifierReads(qs[0], more);
      QuantifiersRead(qs[1..], Repeated(e, qs[0]), rest, n + 1, d, cap);
    }
  }

  lemma {:induction false} ItemReads(x: Item, more: Tokens, done: seq<Re>, bare: seq<Word>) returns (bare': seq<Word>)
    requires ItemOk(x) && !Head(more).Dash?
    ensures ClassItems(WriteItem(x, more), done, bare) == ClassItems(more, done + [ItemTree(x)], bare')
  {
    match x
    case DotItem => bare' := bare;
    case WordItem(w) =>
      var item := ClassItem(w, more);
      assert item.Ok? && item.value == ItemTree(x) && item.rest == more;
      bare' := bare + item.bare;
    case SpanItem(lo, hi) =>
      var item := ClassItem(lo, Cons(Dash, Cons(TWord(hi), more)));
      assert item.Ok? && item.value == ItemTree(x) && item.rest == more;
      bare' := bare + item.bare;
  }

  lemma {:induction false} ItemsRead(items: seq<Item>, rest: Tokens, done: seq<Re>, bare: seq<Word>)
    requires forall i :: 0 <= i < |items| ==> ItemOk(items[i])
    ensures var r := ClassItems(WriteItems(items, Cons(RBracket, rest)), done, bare);
            r.Ok? && r.value == done + ItemTrees(items) && r.rest == rest
    decreases |items|
  {
    if items == [] {
      assert done + [] == done;
    } else {
      var x, others := items[0], items[1..];
      var more := WriteItems(others, Cons(RBracket, rest));
      ItemsHead(others, rest);
      var bare' := ItemReads(x, more, done, bare);
      ItemsRead(others, rest, done + [ItemTree(x)], bare');
      Assoc(done, [ItemTree(x)], ItemTrees(others));
    }
  }

  lemma {:induction false} ItemsHead(items: seq<Item>, rest: Tokens)
    ensures var t := Head(WriteItems(items, Cons(RBracket, rest))); !t.Dash? && !t.Caret?
  {
  }

  lemma {:induction false} ClassReads(negated: bool, items: seq<Item>, rest: Tokens)
    requires items != [] && forall i :: 0 <= i < |items| ==> ItemOk(items[i])
    ensures var r := ClassOf(WriteClass(negated, items, rest));
            r.Ok? && r.value == Class(negated, ItemTrees(items)) && r.rest == rest
  {
    ItemsRead(items, rest, [], []);
    assert [] + ItemTrees(items) == ItemTrees(items);
    ItemsHead(items, rest);
  }

  lemma {:induction false} AtomReads(a: Atom, rest: Tokens, d: nat, cap: nat)
    requires AtomOk(a) && d <= cap
    ensures Reads(ParseAtom(WriteAtom(a, rest), d, cap), AtomTree(a), rest, d + AtomDepth(a), cap)
    ensures AtomStart(Head(WriteAtom(a, rest)))
    decreases a, 0
  {
    match a
    case GroupAtom(b) => BranchesRead(b, Cons(RParen, rest), d, cap);
    case ClassAtom(negated, items) => ClassReads(negated, items, rest);
    case _ =>
  }

  lemma {:induction false} TermReads(t: Term, rest: Tokens, d: nat, cap: nat)
    requires TermOk(t) && d <= cap && EndsTerm(Head(rest))
    ensures Reads(ParseTerm(WriteTerm(t, rest), d, cap), TermTree(t), rest, d + TermDepth(t), cap)
    ensures AtomStart(Head(WriteTerm(t, rest)))
    decreases t, 0
  {
    AtomReads(t.atom, WriteQuantifiers(t.quants, rest), d, cap);
    AnchorTree(t.atom);
    QuantifiersRead(t.quants, AtomTree(t.atom), rest, 0, d, cap);
  }

  lemma {:induction false} AnchorTree(a: Atom)
    requires AtomOk(a)
    ensures AtomTree(a).Start? || AtomTree(a).End? <==> Anchor(a)
    decreases a
  {
    if a.GroupAtom? {
      var b := a.branches;
      if b.LastBranch? {
        assert BranchTrees(b) == [BranchTree(b.terms)];
        AnchorBranch(b.terms);
      } else {
        assert |BranchTrees(b)| == 1 + |BranchTrees(b.others)| > 1;
      }
    }
  }

  lemma {:induction false} AnchorBranch(ts: Terms)
    requires TermsOk(ts)
    ensures BranchTree(ts).Start? || BranchTree(ts).End? <==> OneAnchor(ts)
    decreases ts
  {
    if ts.ThenTerm? && ts.tail.NoTerms? {
      assert TermTrees(ts) == [TermTree(ts.head)];
      AnchorTree(ts.head.atom);
      RepeatedTree(AtomTree(ts.head.atom), ts.head.quants);
    } else if ts.ThenTerm? {
      assert |TermTrees(ts)| == 1 + |TermTrees(ts.tail)| && |TermTrees(ts.tail)| > 0;
    }
  }

  lemma {:induction false} RepeatedTree(e: Re, qs: seq<Quantifier>)
    ensures qs != [] ==> AllRepeated(e, qs).Repeat?
    decreases |qs|
  {
    if qs != [] { RepeatedTree(Repeated(e, qs[0]), qs[1..]); }
  }

  lemma {:induction false} TermsRead(ts: Terms, rest: Tokens, done: seq<Re>, bare: seq<Word>, d: nat, cap: nat)
    requires TermsOk(ts) && d <= cap && EndsBranch(Head(rest))
    ensures Reads(ParseSeq(WriteTerms(ts, rest), done, bare, d, cap), Whole(done + TermTrees(ts), false), rest,
                  d + TermsDepth(ts), cap)
    ensures EndsTerm(Head(WriteTerms(ts, rest)))
    decreases ts, 0
  {
    if ts.NoTerms? {
      assert done + [] == done;
    } else {
      var more := WriteTerms(ts.tail, rest);
      TermsRead(ts.tail, rest, done + [TermTree(ts.head)], bare, d, cap);
      TermReads(ts.head, more, d, cap);
      var t := ParseTerm(WriteTerm(ts.head, more), d, cap);
      if t.Ok? { TermsRead(ts.tail, rest, done + [TermTree(ts.head)], bare + t.bare, d, cap); }
      assert done + [TermTree(ts.head)] + TermTrees(ts.tail) == done + TermTrees(ts);
    }
  }

  lemma {:induction false} BranchReads(ts: Terms, rest: Tokens, d: nat, cap: nat)
    requires TermsOk(ts) && d <= cap && EndsBranch(Head(rest))
    ensures Reads(ParseSeq(WriteTerms(ts, rest), [], [], d, cap), BranchTree(ts), rest, d + TermsDepth(ts), cap)
    decreases ts, 1
  {
    TermsRead(ts, rest, [], [], d, cap);
    assert [] + TermTrees(ts) == TermTrees(ts);
  }

  /** What follows a branch: another, or the end. */
  function After(b: Branches, rest: Tokens): Tokens {
    if b.LastBranch? then rest else Cons(Pipe, WriteBranches(b.others, rest))
  }

  lemma {:induction false} OthersRead(b: Branches, rest: Tokens, done: seq<Re>, bare: seq<Word>, d: nat, cap: nat)
    requires BranchesOk(b) && d <= cap && EndsAll(Head(rest)) && done != []
    ensures Reads(ParseAlts(Cons(Pipe, WriteBranches(b, rest)), done, bare, d, cap), Whole(done + BranchTrees(b), true),
                  rest, d + BranchesDepth(b), cap)
    decreases b, 0
  {
    BranchReads(b.terms, After(b, rest), d, cap);
    var s := ParseSeq(WriteBranches(b, rest), [], [], d, cap);
    var e := BranchTree(b.terms);
    if b.LastBranch? {
      assert BranchTrees(b) == [e];
    } else {
      assert done + [e] + BranchTrees(b.others) == done + BranchTrees(b);
    }
    if s.Ok? && b.OrBranch? { OthersRead(b.others, rest, done + [e], bare + s.bare, d, cap); }
  }

  lemma {:induction false} BranchesRead(b: Branches, rest: Tokens, d: nat, cap: nat)
    requires BranchesOk(b) && EndsAll(Head(rest))
    ensures Reads(ParseAlt(WriteBranches(b, rest), d, cap), Tree(b), rest, d + Depth(b), cap)
    decreases b, 1
  {
    if d + 1 <= cap {
      BranchReads(b.terms, After(b, rest), d + 1, cap);
      var s := ParseSeq(WriteBranches(b, rest), [], [], d + 1, cap);
      assert WriteBranches(b, rest) == WriteTerms(b.terms, After(b, rest));
      assert ParseAlt(WriteBranches(b, rest), d, cap) ==
             if s.Err? then Err else ParseAlts(s.rest, [s.value], s.bare, d + 1, cap);
      if b.LastBranch? {
        assert BranchTrees(b) == [BranchTree(b.terms)];
        assert Tree(b) == BranchTree(b.terms) && Depth(b) == 1 + TermsDepth(b.terms);
      } else {
        assert Depth(b) == 1 + Max(TermsDepth(b.terms), BranchesDepth(b.others));
        if s.Ok? {
          OthersRead(b.others, rest, [s.value], s.bare, d + 1, cap);
          assert [s.value] + BranchTrees(b.others) == BranchTrees(b);
          assert Tree(b) == Whole(BranchTrees(b), true);
        }
      }
    }
  }

  // ---- whatever parses is a sentence ----

  lemma {:induction false} BoundsDerive(ts: Tokens) returns (b: Bounds)
    requires RangeOf(ts).Ok?
    ensures var r := RangeOf(ts);
            (b.Exactly? || b.AtLeast? || b.Between?) && QuantifierOk(Quantifier(false, b)) &&
            WriteBounds(b, r.rest) == Cons(LBrace, ts) &&
              Op(Quantifier(false, b)) == Quant(Range, r.value.0, r.value.1, false)
  {
    var m, after := ts.head.word.n, ts.tail;
    if !Head(after).Comma? {
      b := Exactly(m);
    } else if Head(after.tail).TWord? {
      b := Between(m, after.tail.head.word.n);
    } else {
      b := AtLeast(m);
    }
  }

  lemma {:induction false} QuantifierDerives(ts: Tokens) returns (q: Quantifier)
    requires QuantOf(ts).Ok?
    ensures var r := QuantOf(ts); QuantifierOk(q) && WriteQuantifier(q, r.rest) == ts && Op(q) == r.value
  {
    var same := Head(ts).Tilde?;
    var body := if same then ts.tail else ts;
    match Head(body)
    case StarT => q := Quantifier(same, StarB);
    case PlusT => q := Quantifier(same, PlusB);
    case QuestT => q := Quantifier(same, QuestB);
    case LBrace =>
      var b := BoundsDerive(body.tail);
      q := Quantifier(same, b);
  }

  lemma {:induction false} QuantifiersDerive(ts: Tokens, e: Re, n: nat, d: nat, cap: nat) returns (qs: seq<Quantifier>)
    requires ParseQuants(ts, e, n, d, cap).Ok?
    ensures var r := ParseQuants(ts, e, n, d, cap);
            QuantifiersOk(qs) && WriteQuantifiers(qs, r.rest) == ts && AllRepeated(e, qs) == r.value &&
            d + n + |qs| <= cap && (e.Start? || e.End? ==> qs == [])
    decreases Len(ts)
  {
    if !QuantStart(Head(ts)) {
      qs := [];
    } else {
      var q := QuantifierDerives(ts);
      var o := QuantOf(ts);
      var e' := Repeat(e, o.value.op, o.value.min, o.value.max, o.value.same);
      assert Repeated(e, q) == e';
      var more := QuantifiersDerive(o.rest, e', n + 1, d, cap);
      qs := [q] + more;
      assert qs[1..] == more;
    }
  }

  lemma {:induction false} ItemDerives(w: Word, ts: Tokens) returns (x: Item)
    requires ClassItem(w, ts).Ok?
    ensures var r := ClassItem(w, ts); ItemOk(x) && WriteItem(x, r.rest) == Cons(TWord(w), ts) && ItemTree(x) == r.value
  {
    if Head(ts).Dash? { x := SpanItem(w, ts.tail.head.word); } else { x := WordItem(w); }
  }

  lemma {:induction false} ItemsDerive(ts: Tokens, done: seq<Re>, bare: seq<Word>) returns (items: seq<Item>)
    requires ClassItems(ts, done, bare).Ok?
    ensures var r := ClassItems(ts, done, bare);
            (forall i :: 0 <= i < |items| ==> ItemOk(items[i])) && WriteItems(items, Cons(RBracket, r.rest)) == ts &&
            r.value == done + ItemTrees(items)
    decreases Len(ts)
  {
    if Head(ts).RBracket? {
      items := [];
      assert done + [] == done;
    } else {
      var x: Item, rest: Tokens, bare': seq<Word>;
      if Head(ts).Dot? {
        x, rest, bare' := DotItem, ts.tail, bare;
      } else {
        var w := ts.head.word;
        x := ItemDerives(w, ts.tail);
        rest, bare' := ClassItem(w, ts.tail).rest, bare + ClassItem(w, ts.tail).bare;
      }
      var more := ItemsDerive(rest, done + [ItemTree(x)], bare');
      items := [x] + more;
      assert items[1..] == more;
      assert done + [ItemTree(x)] + ItemTrees(more) == done + ItemTrees(items);
    }
  }

  lemma {:induction false} ClassDerives(ts: Tokens) returns (a: Atom)
    requires ClassOf(ts).Ok?
    ensures var r := ClassOf(ts);
            a.ClassAtom? && AtomOk(a) && WriteAtom(a, r.rest) == Cons(LBracket, ts) && AtomTree(a) == r.value
  {
    var negated := Head(ts).Caret?;
    var items := ItemsDerive(if negated then ts.tail else ts, [], []);
    assert [] + ItemTrees(items) == ItemTrees(items);
    a := ClassAtom(negated, items);
  }

  /** a is the atom that r read from ts. */
  predicate IsAtomOf(a: Atom, ts: Tokens, r: Parsed<Re>, d: nat, cap: nat) {
    r.Ok? && AtomOk(a) && WriteAtom(a, r.rest) == ts && AtomTree(a) == r.value && d + AtomDepth(a) <= cap
  }

  lemma {:induction false} AtomDerives(ts: Tokens, d: nat, cap: nat) returns (a: Atom)
    requires ParseAtom(ts, d, cap).Ok? && d <= cap
    ensures IsAtomOf(a, ts, ParseAtom(ts, d, cap), d, cap)
    decreases Len(ts), 1
  {
    if Head(ts).LParen? {
      var b := AltDerives(ts.tail, d, cap);
      a := GroupDerives(ts, b, ParseAlt(ts.tail, d, cap), d, cap);
    } else {
      a := PlainAtomDerives(ts, d, cap);
    }
  }

  lemma {:induction false} GroupDerives(ts: Tokens, b: Branches, x: Parsed<Re>, d: nat, cap: nat) returns (a: Atom)
    requires ts.Cons? && ts.head.LParen? && x.Ok? && x.rest.Cons? && x.rest.head.RParen?
    requires BranchesOk(b) && WriteBranches(b, x.rest) == ts.tail && Tree(b) == x.value && d + Depth(b) <= cap
    ensures IsAtomOf(a, ts, Ok(x.value, x.rest.tail, x.bare), d, cap)
  {
    a := GroupAtom(b);
  }

  lemma {:induction false} PlainAtomDerives(ts: Tokens, d: nat, cap: nat) returns (a: Atom)
    requires ParseAtom(ts, d, cap).Ok? && !Head(ts).LParen? && d <= cap
    ensures IsAtomOf(a, ts, ParseAtom(ts, d, cap), d, cap)
  {
    match Head(ts)
    case LBracket => a := ClassDerives(ts.tail);
    case Dot => a := DotAtom;
    case Caret => a := CaretAtom;
    case Dollar => a := DollarAtom;
    case TWord(w) => a := WordAtom(w);
  }

  lemma {:induction false} TermDerives(ts: Tokens, d: nat, cap: nat) returns (t: Term)
    requires ParseTerm(ts, d, cap).Ok? && d <= cap
    ensures var r := ParseTerm(ts, d, cap);
            TermOk(t) && WriteTerm(t, r.rest) == ts && TermTree(t) == r.value && d + TermDepth(t) <= cap
    decreases Len(ts), 2
  {
    var a := AtomDerives(ts, d, cap);
    AnchorTree(a);
    var r := ParseAtom(ts, d, cap);
    var qs := QuantifiersDerive(r.rest, r.value, 0, d, cap);
    t := Term(a, qs);
  }

  lemma {:induction false} SeqDerives(ts: Tokens, done: seq<Re>, bare: seq<Word>, d: nat, cap: nat) returns (x: Terms)
    requires ParseSeq(ts, done, bare, d, cap).Ok? && d <= cap
    ensures var r := ParseSeq(ts, done, bare, d, cap);
            TermsOk(x) && WriteTerms(x, r.rest) == ts && r.value == Whole(done + TermTrees(x), false) &&
            d + TermsDepth(x) <= cap
    decreases Len(ts), 3
  {
    if !AtomStart(Head(ts)) {
      x := NoTerms;
      assert done + [] == done;
    } else {
      var t := TermDerives(ts, d, cap);
      var r := ParseTerm(ts, d, cap);
      var more := SeqDerives(r.rest, done + [r.value], bare + r.bare, d, cap);
      x := ThenTerm(t, more);
      assert done + [r.value] + TermTrees(more) == done + TermTrees(x);
    }
  }

  lemma {:induction false} BranchDerives(ts: Tokens, d: nat, cap: nat) returns (x: Terms)
    requires ParseSeq(ts, [], [], d, cap).Ok? && d <= cap
    ensures var r := ParseSeq(ts, [], [], d, cap);
            TermsOk(x) && WriteTerms(x, r.rest) == ts && r.value == BranchTree(x) && d + TermsDepth(x) <= cap
    decreases Len(ts), 4
  {
    x := SeqDerives(ts, [], [], d, cap);
    assert [] + TermTrees(x) == TermTrees(x);
  }

  /** b is the branches that r read from ts after those in done. */
  predicate AreBranchesOf(b: Branches, ts: Tokens, done: seq<Re>, r: Parsed<Re>, d: nat, cap: nat) {
    && r.Ok? && BranchesOk(b) && WriteBranches(b, r.rest) == ts
    && r.value == Whole(done + BranchTrees(b), true) && d + BranchesDepth(b) <= cap
  }

  lemma {:induction false} BranchBefore(x: Terms, others: Branches, ts: Tokens, rest: Tokens, done: seq<Re>,
                                        r: Parsed<Re>, d: nat, cap: nat)
    requires TermsOk(x) && WriteTerms(x, Cons(Pipe, rest)) == ts && d + TermsDepth(x) <= cap
    requires AreBranchesOf(others, rest, done + [BranchTree(x)], r, d, cap)
    ensures AreBranchesOf(OrBranch(x, others), ts, done, r, d, cap)
  {
    Assoc(done, [BranchTree(x)], BranchTrees(others));
  }

  lemma {:induction false} OnlyBranch(x: Terms, ts: Tokens, done: seq<Re>, r: Parsed<Re>, d: nat, cap: nat)
    requires r.Ok? && TermsOk(x) && WriteTerms(x, r.rest) == ts && d + TermsDepth(x) <= cap
    requires r.value == Whole(done + [BranchTree(x)], true)
    ensures AreBranchesOf(LastBranch(x), ts, done, r, d, cap)
  {
    assert BranchTrees(LastBranch(x)) == [BranchTree(x)];
  }

  /** The branches after one that a '|' follows. */
  lemma {:induction false} OthersDerive(ts: Tokens, done: seq<Re>, bare: seq<Word>, d: nat, cap: nat)
    returns (b: Branches)
    requires ParseAlts(ts, done, bare, d, cap).Ok? && d <= cap && Head(ts).Pipe?
    ensures AreBranchesOf(b, ts.tail, done, ParseAlts(ts, done, bare, d, cap), d, cap)
    decreases Len(ts), 4
  {
    var x := BranchDerives(ts.tail, d, cap);
    var s := ParseSeq(ts.tail, [], [], d, cap);
    var r := ParseAlts(s.rest, done + [s.value], bare + s.bare, d, cap);
    if Head(s.rest).Pipe? {
      var others := OthersDerive(s.rest, done + [s.value], bare + s.bare, d, cap);
      BranchBefore(x, others, ts.tail, s.rest.tail, done, r, d, cap);
      b := OrBranch(x, others);
    } else {
      OnlyBranch(x, ts.tail, done, r, d, cap);
      b := LastBranch(x);
    }
  }

  lemma {:induction false} AltDerives(ts: Tokens, d: nat, cap: nat) returns (b: Branches)
    requires ParseAlt(ts, d, cap).Ok?
    ensures var r := ParseAlt(ts, d, cap);
            BranchesOk(b) && WriteBranches(b, r.rest) == ts && Tree(b) == r.value && d + Depth(b) <= cap
    decreases Len(ts), 5
  {
    var x := BranchDerives(ts, d + 1, cap);
    var s := ParseSeq(ts, [], [], d + 1, cap);
    var r := ParseAlts(s.rest, [s.value], s.bare, d + 1, cap);
    assert [] + [s.value] == [s.value];
    if Head(s.rest).Pipe? {
      var others := OthersDerive(s.rest, [s.value], s.bare, d + 1, cap);
      BranchBefore(x, others, ts, s.rest.tail, [], r, d + 1, cap);
      b := OrBranch(x, others);
    } else {
      OnlyBranch(x, ts, [], r, d + 1, cap);
      b := LastBranch(x);
    }
    assert [] + BranchTrees(b) == BranchTrees(b);
  }

  // ---- exactly the sentences parse ----

  /** ts is a sentence that means e and nests no deeper than cap. */
  ghost predicate Spells(b: Branches, ts: Tokens, e: Re, cap: nat) {
    BranchesOk(b) && WriteBranches(b, Nil) == ts && Tree(b) == e && Depth(b) <= cap
  }

  /** ts has at least one token and is a sentence that means e. */
  ghost predicate Means(ts: Tokens, e: Re, cap: nat) { !ts.Nil? && exists b :: Spells(b, ts, e, cap) }

  /** A body parses to a tree exactly when it is a sentence that means that tree and nests within the cap. */
  lemma {:induction false} ParsesIff(ts: Tokens, e: Re, cap: nat)
    ensures Parse(ts, cap).Ok? && Parse(ts, cap).value == e <==> Means(ts, e, cap)
  {
    if Parse(ts, cap).Ok? {
      var b := AltDerives(ts, 0, cap);
      assert Spells(b, ts, Parse(ts, cap).value, cap);
    }
    if Means(ts, e, cap) {
      var b :| Spells(b, ts, e, cap);
      BranchesRead(b, Nil, 0, cap);
    }
  }
}
