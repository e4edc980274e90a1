/** The AS-path regexp parser itself (policy/regexp.go:206-528): it moves along the tokens, counts the
    nesting and collects plain AS numbers. */
module RegexpParser {
  import opened Prefixes
  import opened Regexps
  import opened RegexpGrammar
  import opened RegexpNumbers
  import opened RegexpSyntax
  import Spec = RegexpSyntax

  const MAX_PARSE_DEPTH: nat := 1000

  lemma ListedFrom(ts: seq<Token>, i: nat)
    requires i < |ts|
    ensures Listed(ts[i..]) == Cons(ts[i], Listed(ts[i + 1..]))
  {
    assert ts[i..][1..] == ts[i + 1..];
  }

  class ReParser {
    const toks: seq<Token>
    const cap: nat
    var pos: nat
    var depth: nat
    var bare: seq<Word>

    constructor (body: seq<Token>, cap: nat)
      requires Eof !in body
      ensures Valid() && Left() == Listed(body) && depth == 0 && bare == [] && this.cap == cap
    {
      toks, this.cap := body + [Eof], cap;
      pos, depth, bare := 0, 0, [];
      new;
      assert Body() == body && body[0..] == body;
    }

    /** The tokens end with the one end token. */
    ghost predicate Valid()
      reads this
    {
      pos < |toks| && toks[|toks| - 1] == Eof && Eof !in toks[..|toks| - 1]
    }

    ghost function Body(): seq<Token>
      reads this
      requires Valid()
    {
      toks[..|toks| - 1]
    }

    /** The tokens left to read. */
    ghost function Left(): Tokens
      reads this
      requires Valid()
    {
      Listed(Body()[pos..])
    }

    method Cur() returns (t: Token)
      requires Valid()
      ensures t == Head(Left())
    {
      t := toks[pos];
      if pos < |toks| - 1 {
        ListedFrom(Body(), pos);
      } else {
        assert Body()[pos..] == [];
      }
    }

    method Peek() returns (t: Token)
      requires Valid()
      ensures t == if Left().Nil? then Eof else Head(Left().tail)
    {
      if pos < |toks| - 1 { ListedFrom(Body(), pos); } else { assert Body()[pos..] == []; }
      if pos + 1 < |toks| {
        t := toks[pos + 1];
        if pos + 1 < |toks| - 1 { ListedFrom(Body(), pos + 1); } else { assert Body()[pos + 1..] == []; }
      } else {
        t := toks[|toks| - 1];
      }
    }

    method Advance()
      requires Valid()
      modifies this`pos
      ensures Valid() && Left() == if old(Left()).Nil? then Nil else old(Left()).tail
    {
      if pos < |toks| - 1 {
        ListedFrom(Body(), pos);
        pos := pos + 1;
      } else {
        assert Body()[pos..] == [];
      }
    }

    /** What a parsing method has done: it read what the specification p reads, or failed as it does,
        from depth d with plain AS numbers was. */
    ghost predicate Did<T>(r: Option<T>, p: Parsed<T>, d: nat, was: seq<Word>)
      reads this
    {
      && Valid() && depth == d
      && (r.Some? <==> p.Ok?)
      && (r.Some? ==> r.value == p.value && Left() == p.rest && bare == was + p.bare)
    }

    method ParseAlt() returns (r: Option<Re>)
      requires Valid()
      modifies this
      ensures Did(r, Spec.ParseAlt(old(Left()), old(depth), cap), old(depth), old(bare))
      decreases Len(Left()), 5
    {
      depth := depth + 1;
      if depth > cap {
        depth := depth - 1;
        return None;
      }
      ghost var was := bare;
      var first := ParseSeq();
      if first.Some? {
        assert bare == was + bare[|was|..];
        r := ParseBranches(first.value, was);
      }
      depth := depth - 1;
      if first.None? { return None; }
    }

    /** The branches of an alternation after its first; was are the plain AS numbers before it. */
    method ParseBranches(first: Re, ghost was: seq<Word>) returns (r: Option<Re>)
      requires Valid() && was <= bare
      modifies this
      ensures Did(r, Spec.ParseAlts(old(Left()), [first], old(bare[|was|..]), old(depth), cap), old(depth), was)
      decreases Len(Left()), 4
    {
      var alts := [first];
      ghost var spec := Spec.ParseAlts(Left(), alts, bare[|was|..], depth, cap);
      var t := Cur();
      while t.Pipe?
        invariant Valid() && depth == old(depth) && t == Head(Left()) && was <= bare && Len(Left()) <= old(Len(Left()))
        invariant spec == Spec.ParseAlts(Left(), alts, bare[|was|..], depth, cap)
        decreases Len(Left())
      {
        ghost var before := bare;
        Advance();
        var s := ParseSeq();
        if s.None? { return None; }
        assert bare[|was|..] == before[|was|..] + bare[|before|..];
        alts := alts + [s.value];
        t := Cur();
      }
      assert bare == was + bare[|was|..];
      r := Some(Whole(alts, true));
    }

    method ParseSeq() returns (r: Option<Re>)
      requires Valid()
      modifies this
      ensures Did(r, Spec.ParseSeq(old(Left()), [], [], old(depth), cap), old(depth), old(bare))
      decreases Len(Left()), 3
    {
      var terms: seq<Re> := [];
      ghost var spec := Spec.ParseSeq(Left(), [], [], depth, cap);
      assert bare[|bare|..] == [];
      var t := Cur();
      while AtomStart(t)
        invariant Valid() && depth == old(depth) && t == Head(Left()) && old(bare) <= bare
        invariant Len(Left()) <= old(Len(Left()))
        invariant spec == Spec.ParseSeq(Left(), terms, bare[|old(bare)|..], depth, cap)
        decreases Len(Left())
      {
        ghost var before := bare;
        var term := ParseTerm();
        if term.None? { return None; }
        assert bare[|old(bare)|..] == before[|old(bare)|..] + bare[|before|..];
        terms := terms + [term.value];
        t := Cur();
      }
      assert bare == old(bare) + bare[|old(bare)|..];
      r := Some(Whole(terms, false));
    }

    /** An atom and the quantifiers on it, each a level deeper. */
    method ParseTerm() returns (r: Option<Re>)
      requires Valid()
      modifies this
      ensures Did(r, Spec.ParseTerm(old(Left()), old(depth), cap), old(depth), old(bare))
      decreases Len(Left()), 2
    {
      var a := ParseAtom();
      if a.None? { return None; }
      var atom, quantifiers := a.value, 0;
      ghost var spec, read := Spec.ParseQuants(Left(), atom, 0, depth, cap), bare;
      while true
        invariant Valid() && depth == old(depth) && bare == read
        invariant spec == Spec.ParseQuants(Left(), atom, quantifiers, depth, cap)
        decreases Len(Left())
      {
        if depth + quantifiers > cap { return None; }
        var t := Cur();
        if !QuantStart(t) { return Some(atom); }
        var q := ParseQuant();
        if q.None? || atom.Start? || atom.End? { return None; }
        atom := Repeat(atom, q.value.op, q.value.min, q.value.max, q.value.same);
        quantifiers := quantifiers + 1;
      }
    }

    method ParseQuant() returns (r: Option<Quant>)
      requires Valid()
      modifies this`pos
      ensures Did(r, QuantOf(old(Left())), old(depth), old(bare))
    {
      var same := false;
      var t := Cur();
      if t.Tilde? {
        var next := Peek();
        if !next.StarT? && !next.PlusT? && !next.LBrace? { return None; }
        same := true;
        Advance();
        t := next;
      }
      match t
      case StarT =>
        Advance();
        r := Some(Quant(Star, 0, -1, same));
      case PlusT =>
        Advance();
        r := Some(Quant(Plus, 1, -1, same));
      case QuestT =>
        Advance();
        r := Some(Quant(Quest, 0, 1, same));
      case LBrace =>
        Advance();
        var b := ParseRange();
        r := if b.None? then None else Some(Quant(Range, b.value.0, b.value.1, same));
      case _ => r := None;
    }

    method QuantBound() returns (r: Option<nat>)
      requires Valid()
      modifies this`pos
      ensures Valid() && r == Spec.QuantBound(Head(old(Left())))
      ensures r.Some? ==> old(Left()).Cons? && Left() == old(Left()).tail
    {
      var t := Cur();
      r := Spec.QuantBound(t);
      if r.Some? { Advance(); }
    }

    /** The bounds in "{m}", "{m,}" or "{m,n}", from after the '{'. */
    method ParseRange() returns (r: Option<(nat, int)>)
      requires Valid()
      modifies this`pos
      ensures Did(r, RangeOf(old(Left())), old(depth), old(bare))
    {
      var lo := QuantBound();
      if lo.None? { return None; }
      var hi: int := lo.value;
      var t := Cur();
      if t.Comma? {
        Advance();
        t := Cur();
        if t.TWord? {
          var h := QuantBound();
          if h.None? { return None; }
          hi := h.value;
        } else {
          hi := -1;
        }
      }
      t := Cur();
      if !t.RBrace? { return None; }
      Advance();
      if hi >= 0 && hi < lo.value { return None; }
      r := Some((lo.value, hi));
    }

    method ParseAtom() returns (r: Option<Re>)
      requires Valid()
      modifies this
      ensures Did(r, Spec.ParseAtom(old(Left()), old(depth), cap), old(depth), old(bare))
      decreases Len(Left()), 1
    {
      var t := Cur();
      match t
      case LParen =>
        Advance();
        r := ParseAlt();
        if r.Some? {
          var close := Cur();
          if !close.RParen? { return None; }
          Advance();
        }
      case LBracket =>
        Advance();
        r := ParseClass();
      case Dot =>
        Advance();
        r := Some(Any);
      case Caret =>
        Advance();
        r := Some(Start);
      case Dollar =>
        Advance();
        r := Some(End);
      case TWord(w) =>
        Advance();
        r := Classify(w);
      case _ => r := None;
    }

    method Classify(w: Word) returns (r: Option<Re>)
      requires Valid()
      modifies this`bare
      ensures Did(r, ClassifyWord(w, old(Left())), old(depth), old(bare))
    {
      var p := ClassifyWord(w, Nil);
      if p.Err? { return None; }
      bare := bare + p.bare;
      r := Some(p.value);
    }

    /** "[...]" from after the '['. */
    method ParseClass() returns (r: Option<Re>)
      requires Valid()
      modifies this`pos, this`bare
      ensures Did(r, ClassOf(old(Left())), old(depth), old(bare))
    {
      var negated := false;
      var t := Cur();
      if t.Caret? {
        negated := true;
        Advance();
      }
      var items := ParseItems();
      r := if items.None? || items.value == [] then None else Some(Class(negated, items.value));
    }

    method ParseItems() returns (r: Option<seq<Re>>)
      requires Valid()
      modifies this`pos, this`bare
      ensures Did(r, ClassItems(old(Left()), [], []), old(depth), old(bare))
    {
      var items: seq<Re> := [];
      ghost var spec := ClassItems(Left(), [], []);
      assert bare[|bare|..] == [];
      var t := Cur();
      while !t.RBracket?
        invariant Valid() && depth == old(depth) && t == Head(Left()) && old(bare) <= bare
        invariant spec == ClassItems(Left(), items, bare[|old(bare)|..])
        decreases Len(Left())
      {
        ghost var before := bare;
        if t.Dot? {
          Advance();
          items := items + [Any];
        } else if t.TWord? {
          Advance();
          var item := Item(t.word);
          if item.None? { return None; }
          assert bare[|old(bare)|..] == before[|old(bare)|..] + bare[|before|..];
          items := items + [item.value];
        } else {
          return None;
        }
        t := Cur();
      }
      Advance();
      assert bare == old(bare) + bare[|old(bare)|..];
      r := Some(items);
    }

    method Item(w: Word) returns (r: Option<Re>)
      requires Valid()
      modifies this`pos, this`bare
      ensures Did(r, ClassItem(w, old(Left())), old(depth), old(bare))
    {
      var t := Cur();
      if t.Dash? {
        Advance();
        var last := Cur();
        if !last.TWord? { return None; }
        Advance();
        r := AsnRange(w, last.word);
      } else if w.Joined? && RegexpASN(w.lo).Some? && RegexpASN(w.hi).Some? {
        r := AsnRange(w.lo, w.hi);
      } else {
        r := Classify(w);
      }
    }

    method AsnRange(lo: Word, hi: Word) returns (r: Option<Re>)
      requires Valid()
      modifies this`bare
      ensures Did(r, Spec.AsnRange(lo, hi, old(Left())), old(depth), old(bare))
    {
      var p := Spec.AsnRange(lo, hi, Nil);
      if p.Err? { return None; }
      bare := bare + p.bare;
      r := Some(p.value);
    }
  }

  /** parseASPathRegexp: the tree and the plain AS numbers, or an error. */
  method ParseASPathRegexp(body: seq<Token>) returns (r: Option<Re>, bare: seq<Word>)
    requires Eof !in body
    ensures var p := Parse(Listed(body), MAX_PARSE_DEPTH);
            (r.Some? <==> p.Ok?) && (r.Some? ==> r.value == p.value && bare == p.bare)
    ensures forall e :: r == Some(e) <==> Means(Listed(body), e, MAX_PARSE_DEPTH)
    ensures r.Some? ==> bare == Plains(Listed(body), false)
  {
    forall e
      ensures Parse(Listed(body), MAX_PARSE_DEPTH).Ok? && Parse(Listed(body), MAX_PARSE_DEPTH).value == e <==>
              Means(Listed(body), e, MAX_PARSE_DEPTH)
    {
      ParsesIff(Listed(body), e, MAX_PARSE_DEPTH);
    }
    PlainNumbers(Listed(body), MAX_PARSE_DEPTH);
    bare := [];
    if body == [] { return None, []; }
    var p := new ReParser(body, MAX_PARSE_DEPTH);
    var e := p.ParseAlt();
    var t := p.Cur();
    if e.None? || !t.Eof? { return None, []; }
    return e, p.bare;
  }
}
