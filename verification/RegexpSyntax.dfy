/** AS-path regexps as tokens: the printer (policy/regexp_ops.go:34-114) and what the recursive-descent
    parser (policy/regexp.go:271-528) computes, on the tokens left. */
module RegexpSyntax {
  import opened Prefixes
  import opened Regexps

  const MAX_ASN: nat := 0xFFFF_FFFF

  const MAX_INT: nat := 0x7FFF_FFFF_FFFF_FFFF

  /** A word as it classifies: a plain number, an AS number, PeerAS, the name of an as-set, a template of
      one, two words joined by '-', or none of these. */
  datatype Word =
    | Number(n: nat) | AsNumber(n: nat) | PeerWord | SetWord(name: SetName) | TemplateWord(template: Template)
    | Joined(lo: Word, hi: Word) | BadWord(text: string)

  datatype Token =
    | TWord(word: Word)
    | Caret | Dollar | Dot | StarT | PlusT | QuestT | Pipe | LParen | RParen | LBrace | RBrace | Comma
    | LBracket | RBracket | Tilde | Dash | Eof

  /** The tokens left to read. */
  datatype Tokens = Nil | Cons(head: Token, tail: Tokens)

  function Head(ts: Tokens): Token { if ts.Nil? then Eof else ts.head }

  function Len(ts: Tokens): nat { if ts.Nil? then 0 else 1 + Len(ts.tail) }

  function Listed(ts: seq<Token>): Tokens { if ts == [] then Nil else Cons(ts[0], Listed(ts[1..])) }

  // ---- the printer ----

  datatype Prec = PAlt | PSeq | PAtom

  function Paren(ts: seq<Token>, yes: bool): seq<Token> { if yes then [LParen] + ts + [RParen] else ts }

  function Print(e: Re, want: Prec): seq<Token> {
    match e
    case Alt(es) => Paren(PrintAlts(es), want != PAlt)
    case Seq(es) => if es == [] then [LParen, RParen] else Paren(PrintTerms(es), want == PAtom)
    case Repeat(x, _, _, _, _) => Print(x, PAtom) + PrintRepeat(e)
    case Any => [Dot]
    case As(a) => [TWord(AsNumber(a))]
    case SetOf(n) => [TWord(SetWord(n))]
    case TemplateOf(t) => [TWord(TemplateWord(t))]
    case Peer => [TWord(PeerWord)]
    case Start => [Caret]
    case End => [Dollar]
    case Class(negated, es) => [LBracket] + (if negated then [Caret] else []) + PrintTerms(es) + [RBracket]
    case AsRange(lo, hi) => [TWord(AsNumber(lo)), Dash, TWord(AsNumber(hi))]
  }

  function PrintTerms(es: seq<Re>): seq<Token> { if es == [] then [] else Print(es[0], PAtom) + PrintTerms(es[1..]) }

  function PrintAlts(es: seq<Re>): seq<Token> {
    if es == [] then [] else Print(es[0], PSeq) + if |es| == 1 then [] else [Pipe] + PrintAlts(es[1..])
  }

  function PrintRepeat(e: Re): seq<Token>
    requires e.Repeat?
  {
    (if e.same then [Tilde] else []) + PrintOp(e.op, e.min, e.max)
  }

  function PrintOp(op: RepeatOp, min: int, max: int): seq<Token> {
    match op
    case Star => [StarT]
    case Plus => [PlusT]
    case Quest => [QuestT]
    case Range => [LBrace] + PrintBounds(min, max)
  }

  function PrintBounds(min: int, max: int): seq<Token> {
    [TWord(Number(Abs(min)))] + (if max == min then [] else if max < 0 then [Comma] else [Comma, TWord(Number(max))]) +
      [RBrace]
  }

  function Abs(n: int): nat { if n < 0 then -n else n }

  // ---- the parser ----

  /** What a parse leaves: a tree, the tokens after it, and the words in it that were plain AS numbers. */
  datatype Parsed<T> = Ok(value: T, rest: Tokens, bare: seq<Word>) | Err

  /** The number of an AS word, and whether it is plain. */
  function RegexpASN(w: Word): Option<(ASN, bool)> {
    if w.Number? && w.n <= MAX_ASN then Some((w.n, true))
    else if w.AsNumber? && w.n <= MAX_ASN then Some((w.n, false))
    else None
  }

  function ClassifyWord(w: Word, rest: Tokens): Parsed<Re> {
    var a := RegexpASN(w);
    if a.Some? then Ok(As(a.value.0), rest, if a.value.1 then [w] else [])
    else match w
      case PeerWord => Ok(Peer, rest, [])
      case SetWord(n) => Ok(SetOf(n), rest, [])
      case TemplateWord(t) => Ok(TemplateOf(t), rest, [])
      case _ => Err
  }

  function AsnRange(lo: Word, hi: Word, rest: Tokens): Parsed<Re> {
    var l, h := RegexpASN(lo), RegexpASN(hi);
    if l.None? || h.None? || h.value.0 < l.value.0 then Err
    else Ok(AsRange(l.value.0, h.value.0), rest, if l.value.1 || h.value.1 then [Joined(lo, hi)] else [])
  }

  /** The item of a class that starts with the word w, already read. */
  function ClassItem(w: Word, ts: Tokens): (r: Parsed<Re>)
    ensures r.Ok? ==> Len(r.rest) <= Len(ts)
  {
    if Head(ts).Dash? then
      var after := ts.tail;
      if Head(after).TWord? then AsnRange(w, after.head.word, after.tail) else Err
    else if w.Joined? && RegexpASN(w.lo).Some? && RegexpASN(w.hi).Some? then AsnRange(w.lo, w.hi, ts)
    else ClassifyWord(w, ts)
  }

  function ClassItems(ts: Tokens, items: seq<Re>, bare: seq<Word>): (r: Parsed<seq<Re>>)
    ensures r.Ok? ==> Len(r.rest) < Len(ts)
    decreases Len(ts)
  {
    match Head(ts)
    case RBracket => Ok(items, ts.tail, bare)
    case Dot => ClassItems(ts.tail, items + [Any], bare)
    case TWord(w) =>
      var item := ClassItem(w, ts.tail);
      if item.Err? then Err else ClassItems(item.rest, items + [item.value], bare + item.bare)
    case _ => Err
  }

  /** parseClass, from after the '['. */
  function ClassOf(ts: Tokens): (r: Parsed<Re>)
    ensures r.Ok? ==> Len(r.rest) < Len(ts)
  {
    var negated := Head(ts).Caret?;
    var items := ClassItems(if negated then ts.tail else ts, [], []);
    if items.Err? || items.value == [] then Err else Ok(Class(negated, items.value), items.rest, items.bare)
  }

  function QuantBound(t: Token): Option<nat> {
    if t.TWord? && t.word.Number? && t.word.n <= MAX_INT then Some(t.word.n) else None
  }

  /** The bounds of a {m}, {m,} or {m,n}, from after the '{'. */
  function RangeOf(ts: Tokens): (r: Parsed<(nat, int)>)
    ensures r.Ok? ==> Len(r.rest) < Len(ts)
  {
    var lo := QuantBound(Head(ts));
    if lo.None? then Err
    else
      var after := ts.tail;
      var comma := Head(after).Comma?;
      var next := if comma then after.tail else after;
      var upper := comma && Head(next).TWord?;
      var hi := if upper then QuantBound(Head(next)) else None;
      if upper && hi.None? then Err
      else
        var last := if upper then next.tail else next;
        assert Len(last) <= Len(next) <= Len(after) < Len(ts);
        if !Head(last).RBrace? then Err
        else if upper && hi.value < lo.value then Err
        else Ok((lo.value, if !comma then lo.value else if upper then hi.value else -1), last.tail, [])
  }

  /** A quantifier without what it applies to. */
  datatype Quant = Quant(op: RepeatOp, min: int, max: int, same: bool)

  predicate QuantStart(t: Token) { t.StarT? || t.PlusT? || t.QuestT? || t.LBrace? || t.Tilde? }

  /** The quantifier ts starts with. */
  function QuantOf(ts: Tokens): (r: Parsed<Quant>)
    ensures r.Ok? ==> Len(r.rest) < Len(ts)
  {
    if Head(ts).Tilde? then QuantBody(ts.tail, true) else QuantBody(ts, false)
  }

  function QuantBody(ts: Tokens, same: bool): (r: Parsed<Quant>)
    ensures r.Ok? ==> Len(r.rest) < Len(ts)
  {
    match Head(ts)
    case StarT => Ok(Quant(Star, 0, -1, same), ts.tail, [])
    case PlusT => Ok(Quant(Plus, 1, -1, same), ts.tail, [])
    case QuestT => if same then Err else Ok(Quant(Quest, 0, 1, same), ts.tail, [])
    case LBrace =>
      var r := RangeOf(ts.tail);
      if r.Err? then Err else Ok(Quant(Range, r.value.0, r.value.1, same), r.rest, [])
    case _ => Err
  }

  predicate AtomStart(t: Token) { t.TWord? || t.Dot? || t.LParen? || t.LBracket? || t.Caret? || t.Dollar? }

  function Whole(terms: seq<Re>, alt: bool): Re {
    if |terms| == 1 then terms[0] else if alt then Alt(terms) else Seq(terms)
  }

  /** parseAlt with depth d around it. */
  function ParseAlt(ts: Tokens, d: nat, cap: nat): (r: Parsed<Re>)
    ensures r.Ok? ==> Len(r.rest) <= Len(ts)
    decreases Len(ts), 5
  {
    if d + 1 > cap then Err
    else
      var first := ParseSeq(ts, [], [], d + 1, cap);
      if first.Err? then Err else ParseAlts(first.rest, [first.value], first.bare, d + 1, cap)
  }

  /** The branches after the first. */
  function ParseAlts(ts: Tokens, alts: seq<Re>, bare: seq<Word>, d: nat, cap: nat): (r: Parsed<Re>)
    ensures r.Ok? ==> Len(r.rest) <= Len(ts)
    decreases Len(ts), 4
  {
    if !Head(ts).Pipe? then Ok(Whole(alts, true), ts, bare)
    else
      var s := ParseSeq(ts.tail, [], [], d, cap);
      if s.Err? then Err else ParseAlts(s.rest, alts + [s.value], bare + s.bare, d, cap)
  }

  /** parseSeq, terms read already. */
  function ParseSeq(ts: Tokens, terms: seq<Re>, bare: seq<Word>, d: nat, cap: nat): (r: Parsed<Re>)
    ensures r.Ok? ==> Len(r.rest) <= Len(ts)
    decreases Len(ts), 3
  {
    if !AtomStart(Head(ts)) then Ok(Whole(terms, false), ts, bare)
    else
      var t := ParseTerm(ts, d, cap);
      if t.Err? then Err else ParseSeq(t.rest, terms + [t.value], bare + t.bare, d, cap)
  }

  function ParseTerm(ts: Tokens, d: nat, cap: nat): (r: Parsed<Re>)
    ensures r.Ok? ==> Len(r.rest) < Len(ts)
    decreases Len(ts), 2
  {
    var a := ParseAtom(ts, d, cap);
    if a.Err? then Err else
      var q := ParseQuants(a.rest, a.value, 0, d, cap);
      if q.Err? then Err else Ok(q.value, q.rest, a.bare)
  }

  /** The quantifiers on atom, count of them read already. */
  function ParseQuants(ts: Tokens, atom: Re, count: nat, d: nat, cap: nat): (r: Parsed<Re>)
    ensures r.Ok? ==> Len(r.rest) <= Len(ts)
    decreases Len(ts), 0
  {
    if d + count > cap then Err
    else if !QuantStart(Head(ts)) then Ok(atom, ts, [])
    else
      var q := QuantOf(ts);
      if q.Err? || atom.Start? || atom.End? then Err
      else ParseQuants(q.rest, Repeat(atom, q.value.op, q.value.min, q.value.max, q.value.same), count + 1, d, cap)
  }

  function ParseAtom(ts: Tokens, d: nat, cap: nat): (r: Parsed<Re>)
    ensures r.Ok? ==> Len(r.rest) < Len(ts)
    decreases Len(ts), 1
  {
    match Head(ts)
    case LParen =>
      var x := ParseAlt(ts.tail, d, cap);
      if x.Err? || !Head(x.rest).RParen? then Err else Ok(x.value, x.rest.tail, x.bare)
    case LBracket => ClassOf(ts.tail)
    case Dot => Ok(Any, ts.tail, [])
    case Caret => Ok(Start, ts.tail, [])
    case Dollar => Ok(End, ts.tail, [])
    case TWord(w) => ClassifyWord(w, ts.tail)
    case _ => Err
  }

  /** parseASPathRegexp: the whole body, with at least one token. */
  function Parse(ts: Tokens, cap: nat): Parsed<Re> {
    if ts.Nil? then Err else
      var r := ParseAlt(ts, 0, cap);
      if r.Ok? && !r.rest.Nil? then Err else r
  }
}
