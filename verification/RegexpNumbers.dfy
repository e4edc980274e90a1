/** Plain numbers of an AS-path regexp (policy/regexp.go:381-528): each is the AS number it names. */
module RegexpNumbers {
  import opened Prefixes
  import opened Regexps
  import opened RegexpSyntax

  function NamedNumber(w: Word): Word { if w.Number? then AsNumber(w.n) else w }

  function NamedWord(w: Word): Word {
    if w.Joined? then Joined(NamedNumber(w.lo), NamedNumber(w.hi)) else NamedNumber(w)
  }

  /** Every plain number made the AS number it names, but for the bounds of a quantifier. */
  function Named(ts: Tokens, braces: bool): Tokens {
    match ts
    case Nil => Nil
    case Cons(t, rest) =>
      Cons(if t.TWord? && !braces then TWord(NamedWord(t.word)) else t,
           Named(rest, if t.LBrace? then true else if t.RBrace? then false else braces))
  }

  /** The words with a plain number, in order, two words with a '-' between them as one. */
  function Plains(ts: Tokens, braces: bool): seq<Word>
    decreases ts
  {
    match ts
    case Nil => []
    case Cons(t, rest) =>
      if !t.TWord? then Plains(rest, if t.LBrace? then true else if t.RBrace? then false else braces)
      else if braces then Plains(rest, braces)
      else if rest.Cons? && rest.head.Dash? && rest.tail.Cons? && rest.tail.head.TWord? then
        PlainRange(t.word, rest.tail.head.word) + Plains(rest.tail.tail, braces)
      else PlainWord(t.word) + Plains(rest, braces)
  }

  function PlainRange(lo: Word, hi: Word): seq<Word> { if lo.Number? || hi.Number? then [Joined(lo, hi)] else [] }

  function PlainWord(w: Word): seq<Word> {
    if w.Number? then [w] else if w.Joined? then PlainRange(w.lo, w.hi) else []
  }

  /** With the plain numbers named, the parse comes to the same, no word plain. */
  predicate Alike<T(==)>(r: Parsed<T>, r': Parsed<T>) {
    if r.Err? then r'.Err? else r' == Ok(r.value, Named(r.rest, false), [])
  }

  /** The plain words of ts are those the parse adds to bare and those left. A '-' left fails the parse later. */
  predicate Lists<T(==)>(ts: Tokens, bare: seq<Word>, r: Parsed<T>) {
    r.Ok? && !Head(r.rest).Dash? ==> bare + Plains(ts, false) == r.bare + Plains(r.rest, false)
  }

  lemma {:induction false} WordAlike(w: Word, rest: Tokens)
    ensures Alike(ClassifyWord(w, rest), ClassifyWord(NamedWord(w), Named(rest, false)))
    ensures Lists(Cons(TWord(w), rest), [], ClassifyWord(w, rest))
  {
    var ts := Cons(TWord(w), rest);
    if !Head(rest).Dash? {
      assert Plains(ts, false) == PlainWord(w) + Plains(rest, false);
      assert [] + Plains(ts, false) == Plains(ts, false);
    }
  }

  lemma {:induction false} ItemAlike(w: Word, ts: Tokens)
    ensures Alike(ClassItem(w, ts), ClassItem(NamedWord(w), Named(ts, false)))
    ensures Lists(Cons(TWord(w), ts), [], ClassItem(w, ts))
  {
    var all := Cons(TWord(w), ts);
    assert [] + Plains(all, false) == Plains(all, false);
    if Head(ts).Dash? {
      var after := ts.tail;
      assert Named(ts, false) == Cons(Dash, Named(after, false));
      if Head(after).TWord? {
        assert Named(after, false) == Cons(TWord(NamedWord(after.head.word)), Named(after.tail, false));
        assert Plains(all, false) == PlainRange(w, after.head.word) + Plains(after.tail, false);
      }
    } else if w.Joined? && RegexpASN(w.lo).Some? && RegexpASN(w.hi).Some? {
      assert Plains(all, false) == PlainWord(w) + Plains(ts, false);
    } else {
      WordAlike(w, ts);
    }
  }

  lemma {:induction false} NoneAdded()
    ensures var none: seq<Word> := []; none + none == none
  {
  }

  lemma {:induction false} ItemsAlike(ts: Tokens, items: seq<Re>, bare: seq<Word>)
    ensures Alike(ClassItems(ts, items, bare), ClassItems(Named(ts, false), items, []))
    ensures Lists(ts, bare, ClassItems(ts, items, bare))
    decreases Len(ts)
  {
    HeadNamed(ts);
    NoneAdded();
    match Head(ts)
    case Dot => ItemsAlike(ts.tail, items + [Any], bare);
    case TWord(w) =>
      ItemAlike(w, ts.tail);
      var item := ClassItem(w, ts.tail);
      if item.Ok? {
        ItemsAlike(item.rest, items + [item.value], bare + item.bare);
        ListsThen(ts, bare, item, ClassItems(item.rest, items + [item.value], bare + item.bare));
      }
    case _ =>
  }

  /** One parse after another lists the plain words of both. */
  lemma {:induction false} ListsThen<T, R>(ts: Tokens, bare: seq<Word>, a: Parsed<T>, b: Parsed<R>)
    requires a.Ok? && Lists(ts, [], a) && Lists(a.rest, bare + a.bare, b)
    requires Head(a.rest).Dash? && b.Ok? ==> Head(b.rest).Dash?
    ensures Lists(ts, bare, b)
  {
    if b.Ok? && !Head(b.rest).Dash? {
      assert [] + Plains(ts, false) == Plains(ts, false);
      assert bare + (a.bare + Plains(a.rest, false)) == (bare + a.bare) + Plains(a.rest, false);
    }
  }

  lemma {:induction false} ClassAlike(ts: Tokens)
    ensures Alike(ClassOf(ts), ClassOf(Named(ts, false)))
    ensures Lists(Cons(LBracket, ts), [], ClassOf(ts))
  {
    var from := if Head(ts).Caret? then ts.tail else ts;
    ItemsAlike(from, [], []);
    assert Plains(Cons(LBracket, ts), false) == Plains(ts, false) == Plains(from, false);
  }

  lemma {:induction false} RangeAlike(ts: Tokens)
    ensures Alike(RangeOf(ts), RangeOf(Named(ts, true)))
    ensures RangeOf(ts).Ok? ==> Plains(ts, true) == Plains(RangeOf(ts).rest, false)
  {
    var lo := QuantBound(Head(ts));
    if lo.Some? {
      var after := ts.tail;
      var next := if Head(after).Comma? then after.tail else after;
      var last := if Head(after).Comma? && Head(next).TWord? then next.tail else next;
      assert Named(ts, true) == Cons(ts.head, Named(after, true)) && Plains(ts, true) == Plains(after, true);
      HeadInside(after);
      HeadInside(next);
      HeadInside(last);
    }
  }

  /** Inside braces nothing changes up to the closing one. */
  lemma {:induction false} HeadInside(ts: Tokens)
    ensures Head(Named(ts, true)) == Head(ts)
    ensures ts.Cons? ==> Named(ts, true).tail == Named(ts.tail, !ts.head.RBrace?)
    ensures ts.Cons? && !ts.head.LBrace? ==> Plains(ts, true) == Plains(ts.tail, !ts.head.RBrace?)
  {
  }

  lemma {:induction false} HeadNamed(ts: Tokens)
    ensures var t := Head(ts); Head(Named(ts, false)) == if t.TWord? then TWord(NamedWord(t.word)) else t
    ensures ts.Cons? ==> Named(ts, false).tail == Named(ts.tail, ts.head.LBrace?)
    ensures ts.Cons? && !ts.head.TWord? ==> Plains(ts, false) == Plains(ts.tail, ts.head.LBrace?)
  {
  }

  lemma {:induction false} QuantAlike(ts: Tokens)
    ensures Alike(QuantOf(ts), QuantOf(Named(ts, false)))
    ensures QuantOf(ts).Ok? ==> Plains(ts, false) == Plains(QuantOf(ts).rest, false)
  {
    HeadNamed(ts);
    if Head(ts).Tilde? { BodyAlike(ts.tail, true); } else { BodyAlike(ts, false); }
  }

  lemma {:induction false} BodyAlike(ts: Tokens, same: bool)
    ensures Alike(QuantBody(ts, same), QuantBody(Named(ts, false), same))
    ensures QuantBody(ts, same).Ok? ==> Plains(ts, false) == Plains(QuantBody(ts, same).rest, false)
  {
    HeadNamed(ts);
    if Head(ts).LBrace? { RangeAlike(ts.tail); }
  }

  lemma {:induction false} QuantsAlike(ts: Tokens, atom: Re, count: nat, d: nat, cap: nat)
    ensures var r := ParseQuants(ts, atom, count, d, cap);
            && Alike(r, ParseQuants(Named(ts, false), atom, count, d, cap))
            && (r.Ok? ==> r.bare == [] && Plains(ts, false) == Plains(r.rest, false))
            && (r.Ok? && Head(ts).Dash? ==> Head(r.rest).Dash?)
    decreases Len(ts)
  {
    HeadNamed(ts);
    if d + count <= cap && QuantStart(Head(ts)) {
      QuantAlike(ts);
      var q := QuantOf(ts);
      if q.Ok? && !atom.Start? && !atom.End? {
        QuantsAlike(q.rest, Repeat(atom, q.value.op, q.value.min, q.value.max, q.value.same), count + 1, d, cap);
      }
    }
  }

  lemma {:induction false} AtomAlike(ts: Tokens, d: nat, cap: nat)
    ensures Alike(ParseAtom(ts, d, cap), ParseAtom(Named(ts, false), d, cap))
    ensures Lists(ts, [], ParseAtom(ts, d, cap))
    decreases Len(ts), 1
  {
    HeadNamed(ts);
    match Head(ts)
    case LParen =>
      AltAlike(ts.tail, d, cap);
      GroupAlike(ts, ParseAlt(ts.tail, d, cap), ParseAlt(Named(ts.tail, false), d, cap));
    case LBracket => ClassAlike(ts.tail);
    case TWord(w) => WordAlike(w, ts.tail);
    case _ =>
  }

  /** Parentheses hold no plain word of their own. */
  lemma {:induction false} GroupAlike(ts: Tokens, x: Parsed<Re>, x': Parsed<Re>)
    requires ts.Cons? && ts.head.LParen? && Alike(x, x') && Lists(ts.tail, [], x)
    ensures x.Ok? ==> (Head(x.rest).RParen? <==> Head(x'.rest).RParen?)
    ensures x.Ok? && Head(x.rest).RParen? ==> x'.rest.tail == Named(x.rest.tail, false)
    ensures x.Ok? && Head(x.rest).RParen? ==> Plains(ts, false) == x.bare + Plains(x.rest.tail, false)
  {
    if x.Ok? {
      HeadNamed(x.rest);
      assert [] + Plains(ts.tail, false) == Plains(ts, false);
    }
  }

  lemma {:induction false} TermAlike(ts: Tokens, d: nat, cap: nat)
    ensures Alike(ParseTerm(ts, d, cap), ParseTerm(Named(ts, false), d, cap))
    ensures Lists(ts, [], ParseTerm(ts, d, cap))
    decreases Len(ts), 2
  {
    AtomAlike(ts, d, cap);
    var a := ParseAtom(ts, d, cap);
    if a.Ok? { QuantsAlike(a.rest, a.value, 0, d, cap); }
  }

  lemma {:induction false} SeqAlike(ts: Tokens, terms: seq<Re>, bare: seq<Word>, d: nat, cap: nat)
    ensures var r := ParseSeq(ts, terms, bare, d, cap);
            && Alike(r, ParseSeq(Named(ts, false), terms, [], d, cap)) && Lists(ts, bare, r)
            && (r.Ok? && Head(ts).Dash? ==> Head(r.rest).Dash?)
    decreases Len(ts), 3
  {
    HeadNamed(ts);
    NoneAdded();
    if AtomStart(Head(ts)) {
      TermAlike(ts, d, cap);
      var t := ParseTerm(ts, d, cap);
      if t.Ok? {
        SeqAlike(t.rest, terms + [t.value], bare + t.bare, d, cap);
        ListsThen(ts, bare, t, ParseSeq(t.rest, terms + [t.value], bare + t.bare, d, cap));
      }
    }
  }

  lemma {:induction false} AltsAlike(ts: Tokens, alts: seq<Re>, bare: seq<Word>, d: nat, cap: nat)
    ensures var r := ParseAlts(ts, alts, bare, d, cap);
            && Alike(r, ParseAlts(Named(ts, false), alts, [], d, cap)) && Lists(ts, bare, r)
            && (r.Ok? && Head(ts).Dash? ==> Head(r.rest).Dash?)
    decreases Len(ts), 4
  {
    HeadNamed(ts);
    NoneAdded();
    if Head(ts).Pipe? {
      SeqAlike(ts.tail, [], [], d, cap);
      var s := ParseSeq(ts.tail, [], [], d, cap);
      if s.Ok? {
        AltsAlike(s.rest, alts + [s.value], bare + s.bare, d, cap);
        ListsThen(ts, bare, s, ParseAlts(s.rest, alts + [s.value], bare + s.bare, d, cap));
      }
    }
  }

  lemma {:induction false} AltAlike(ts: Tokens, d: nat, cap: nat)
    ensures Alike(ParseAlt(ts, d, cap), ParseAlt(Named(ts, false), d, cap))
    ensures Lists(ts, [], ParseAlt(ts, d, cap))
    decreases Len(ts), 5
  {
    if d + 1 <= cap {
      SeqAlike(ts, [], [], d + 1, cap);
      var s := ParseSeq(ts, [], [], d + 1, cap);
      if s.Ok? {
        AltsAlike(s.rest, [s.value], s.bare, d + 1, cap);
        assert [] + s.bare == s.bare;
        ListsThen(ts, [], s, ParseAlts(s.rest, [s.value], s.bare, d + 1, cap));
      }
    }
  }

  /** A body parses exactly when it does with every plain number named as its AS number, to the same tree, and the
      plain words the parse reports are all those of the body, in order. */
  lemma {:induction false} PlainNumbers(ts: Tokens, cap: nat)
    ensures var r, r' := Parse(ts, cap), Parse(Named(ts, false), cap);
            if r.Err? then r'.Err? else r' == Ok(r.value, Nil, []) && r.rest == Nil && r.bare == Plains(ts, false)
  {
    AltAlike(ts, 0, cap);
    var r := ParseAlt(ts, 0, cap);
    assert r.Ok? ==> (r.rest.Nil? <==> Named(r.rest, false).Nil?);
    if r.Ok? && r.rest.Nil? { assert [] + Plains(ts, false) == Plains(ts, false) && r.bare + [] == r.bare; }
  }
}
