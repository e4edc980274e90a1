/** The line-oriented scanner (lexer/lexer.go:98-385). */
module Lexer {
  import opened Collections
  import opened Prefixes

  datatype Kind = Attribute | Blank | Comment | Malformed

  datatype Span = Span(startLine: nat, startCol: nat, endLine: nat, endCol: nat, startByte: nat, endByte: nat)

  datatype Segment = Segment(valStart: nat, valEnd: nat, srcLine: nat, srcCol: nat, srcByte: nat)

  datatype Token = Token(kind: Kind, name: string, value: string, raw: string, span: Span, segments: seq<Segment>)

  // ---- lines ----

  /** The length of the first line of src with its terminator. */
  function FirstLine(src: string): (n: nat)
    ensures n <= |src| && (src != [] ==> n > 0)
  {
    if src == [] then 0 else if src[0] == '\n' then 1 else 1 + FirstLine(src[1..])
  }

  predicate EndsLine(s: string) { s != [] && s[|s| - 1] == '\n' }

  function Lines(src: string): seq<string>
    decreases |src|
  {
    if src == [] then [] else [src[..FirstLine(src)]] + Lines(src[FirstLine(src)..])
  }

  function Bytes(ls: seq<string>): nat { if ls == [] then 0 else |ls[0]| + Bytes(ls[1..]) }

  function DropLast(s: string, c: char): string { if s != [] && s[|s| - 1] == c then s[..|s| - 1] else s }

  /** What a line holds before its newline, and before a carriage return that ends it. */
  function Text(line: string): string { DropLast(DropLast(line, '\n'), '\r') }

  // ---- what a line is ----

  predicate Space(c: char) { c == ' ' || c == '\t' }

  predicate IsBlankLine(text: string) { text == [] || (Space(text[0]) && IsBlankLine(text[1..])) }

  /** A line that continues an attribute, when there is one. */
  predicate Marked(text: string) { !IsBlankLine(text) && (Space(text[0]) || text[0] == '+') }

  predicate ColonFirst(text: string) { text != [] && text[0] != '#' && (text[0] == ':' || ColonFirst(text[1..])) }

  predicate StartsAttribute(text: string) {
    text != [] && !Space(text[0]) && text[0] != '+' && text[0] != '#' && ColonFirst(text)
  }

  /** classify: the kind of a line, and whether it folds into the attribute in progress. */
  function Classify(text: string, haveCur: bool): (Kind, bool) {
    if IsBlankLine(text) then (Blank, false)
    else if Marked(text) then (if haveCur then Attribute else Malformed, haveCur)
    else if text[0] == '#' then (Comment, false)
    else (if StartsAttribute(text) then Attribute else Malformed, false)
  }

  // ---- values ----

  function IndexOf(s: string, c: char): (n: nat)
    ensures n <= |s|
  {
    if s == [] || s[0] == c then 0 else 1 + IndexOf(s[1..], c)
  }

  function SkipSpaces(s: string, i: nat): (k: nat)
    requires i <= |s|
    ensures i <= k <= |s|
    decreases |s| - i
  {
    if i < |s| && Space(s[i]) then SkipSpaces(s, i + 1) else i
  }

  function BackSpaces(s: string, i: nat, j: nat): (k: nat)
    requires i <= j <= |s|
    ensures i <= k <= j
    decreases j
  {
    if j > i && Space(s[j - 1]) then BackSpaces(s, i, j - 1) else j
  }

  /** Where content from from starts and ends without the spaces and tabs around it. */
  function TrimPos(content: string, from: nat): (r: (nat, nat))
    requires from <= |content|
    ensures from <= r.0 <= r.1 <= |content|
  {
    var i := SkipSpaces(content, from);
    (i, BackSpaces(content, i, |content|))
  }

  function Lower(c: char): char { if 'A' <= c <= 'Z' then (c as int + 32) as char else c }

  function LowerAll(s: string): string { if s == [] then [] else [Lower(s[0])] + LowerAll(s[1..]) }

  function CanonicalName(name: string): string {
    var (i, j) := TrimPos(name, 0);
    LowerAll(name[i..j])
  }

  /** Where the value is in an attribute's first line: from after the ':' to the comment, trimmed. */
  function AttrValue(text: string): (r: (nat, nat))
    ensures r.0 <= r.1 <= |text|
  {
    var content := text[..IndexOf(text, '#')];
    var idx := IndexOf(content, ':');
    TrimPos(content, if idx == |content| then 0 else idx + 1)
  }

  function AttrName(text: string): string {
    var content := text[..IndexOf(text, '#')];
    var idx := IndexOf(content, ':');
    if idx == |content| then "" else CanonicalName(content[..idx])
  }

  /** Where the value is in a continuation line: from after its marker to the comment, trimmed. */
  function ContValue(text: string): (r: (nat, nat))
    ensures r.0 <= r.1 <= |text|
  {
    var content := text[..IndexOf(text, '#')];
    if content == [] then (0, 0) else TrimPos(content, if content[0] == '+' then 1 else 0)
  }

  function Join(segs: seq<string>): string {
    if segs == [] then [] else if |segs| == 1 then segs[0] else Join(segs[..|segs| - 1]) + "\n" + segs[|segs| - 1]
  }

  // ---- tokens ----

  /** An attribute being folded: its token so far, its value in pieces, and where the next piece would
      start in the value. */
  datatype Folding = Folding(token: Token, segs: seq<string>, valOff: nat)

  function LineSpan(text: string, raw: string, line: nat, off: nat): Span {
    Span(line, 1, line, |text| + 1, off, off + |raw|)
  }

  /** The first line of an attribute, text without its terminator, the piece of its value at i. */
  function Begun(name: string, raw: string, text: string, i: nat, piece: string, line: nat, off: nat): Folding {
    Folding(Token(Attribute, name, "", raw, LineSpan(text, raw, line, off),
      [Segment(0, |piece|, line, i + 1, off + i)]), [piece], |piece| + 1)
  }

  function Begin(raw: string, line: nat, off: nat): Folding {
    var text := Text(raw);
    var (i, j) := AttrValue(text);
    Begun(AttrName(text), raw, text, i, text[i..j], line, off)
  }

  /** A line more, text without its terminator, the piece of the value at i. */
  function Extended(f: Folding, raw: string, text: string, i: nat, piece: string, line: nat, off: nat): Folding {
    var t := f.token;
    Folding(t.(raw := t.raw + raw, span := t.span.(endLine := line, endCol := |text| + 1, endByte := off + |raw|),
               segments := t.segments + [Segment(f.valOff, f.valOff + |piece|, line, i + 1, off + i)]),
            f.segs + [piece], f.valOff + |piece| + 1)
  }

  function Extend(f: Folding, raw: string, line: nat, off: nat): Folding {
    var text := Text(raw);
    var (i, j) := ContValue(text);
    Extended(f, raw, text, i, text[i..j], line, off)
  }

  function Flush(cur: Option<Folding>): seq<Token> {
    if cur.None? then [] else [cur.value.token.(value := Join(cur.value.segs))]
  }

  function Trivia(kind: Kind, raw: string, line: nat, off: nat): Token {
    Token(kind, "", "", raw, LineSpan(Text(raw), raw, line, off), [])
  }

  /** Tokens finished, and the attribute in progress. */
  datatype Scanned = Scanned(toks: seq<Token>, cur: Option<Folding>)

  /** What a line does, after cur, at a line and a byte of a stream. */
  type Stepper = (Option<Folding>, string, nat, nat) -> Scanned

  /** What one line does: the tokens it finishes, and the attribute it leaves in progress. */
  function Step(cur: Option<Folding>, raw: string, line: nat, off: nat): Scanned {
    var (kind, isCont) := Classify(Text(raw), cur.Some?);
    if isCont then Scanned([], Some(Extend(cur.value, raw, line, off)))
    else if kind.Attribute? then Scanned(Flush(cur), Some(Begin(raw, line, off)))
    else Scanned(Flush(cur) + [Trivia(kind, raw, line, off)], None)
  }

  /** Scanning lines, the first at a line and a byte of a stream. */
  function Scan(step: Stepper, ls: seq<string>, line: nat, off: nat, cur: Option<Folding>): Scanned
    decreases |ls|
  {
    if ls == [] then Scanned([], cur)
    else
      var first := step(cur, ls[0], line, off);
      var rest := Scan(step, ls[1..], line + 1, off + |ls[0]|, first.cur);
      Scanned(first.toks + rest.toks, rest.cur)
  }

  /** Scanning to the end, what is in progress then finished. */
  function ScanAll(step: Stepper, ls: seq<string>, line: nat, off: nat): seq<Token> {
    var r := Scan(step, ls, line, off, None);
    r.toks + Flush(r.cur)
  }

  function TokensOf(ls: seq<string>, line: nat, off: nat): seq<Token> { ScanAll(Step, ls, line, off) }

  function Tokens(src: string, line: nat, off: nat): seq<Token> { TokensOf(Lines(src), line, off) }

  // ---- splitting the input between lines ----

  lemma {:induction false} FirstLineAppend(a: string, b: string)
    requires EndsLine(a)
    ensures FirstLine(a + b) == FirstLine(a) <= |a| && (a[FirstLine(a)..] == [] || EndsLine(a[FirstLine(a)..]))
    decreases |a|
  {
    if a[0] != '\n' {
      assert (a + b)[1..] == a[1..] + b;
      FirstLineAppend(a[1..], b);
      assert a[1..][FirstLine(a[1..])..] == a[FirstLine(a)..];
    }
  }

  lemma {:induction false} LinesBytes(src: string)
    ensures Bytes(Lines(src)) == |src|
    decreases |src|
  {
    if src != [] {
      LinesBytes(src[FirstLine(src)..]);
      assert Lines(src)[1..] == Lines(src[FirstLine(src)..]);
    }
  }

  /** Lines scan on their own, whatever follows. */
  lemma {:induction false} ScanAppend(step: Stepper, a: seq<string>, b: seq<string>, line: nat, off: nat,
                                      cur: Option<Folding>)
    ensures var first := Scan(step, a, line, off, cur);
            var rest := Scan(step, b, line + |a|, off + Bytes(a), first.cur);
            Scan(step, a + b, line, off, cur) == Scanned(first.toks + rest.toks, rest.cur)
    decreases |a|
  {
    if a == [] {
      assert a + b == b;
      assert [] + Scan(step, b, line, off, cur).toks == Scan(step, b, line, off, cur).toks;
    } else {
      var one := step(cur, a[0], line, off);
      assert (a + b)[0] == a[0] && (a + b)[1..] == a[1..] + b;
      ScanAppend(step, a[1..], b, line + 1, off + |a[0]|, one.cur);
      var mid := Scan(step, a[1..], line + 1, off + |a[0]|, one.cur);
      Assoc(one.toks, mid.toks, Scan(step, b, line + |a|, off + Bytes(a), mid.cur).toks);
    }
  }

  lemma {:induction false} StepAlone(cur: Option<Folding>, raw: string, line: nat, off: nat)
    requires !Marked(Text(raw))
    ensures var alone := Step(None, raw, line, off);
            Step(cur, raw, line, off) == Scanned(Flush(cur) + alone.toks, alone.cur)
  {
    assert Flush(None) == [] && Flush(cur) + [] == Flush(cur);
    var kind := Classify(Text(raw), false).0;
    assert Classify(Text(raw), cur.Some?) == (kind, false);
    if !kind.Attribute? { assert [] + [Trivia(kind, raw, line, off)] == [Trivia(kind, raw, line, off)]; }
  }

  /** From cur, the line raw starts afresh: it finishes what is in progress and does as it would alone. */
  predicate Afresh(step: Stepper, cur: Option<Folding>, raw: string, line: nat, off: nat) {
    var alone := step(None, raw, line, off);
    step(cur, raw, line, off) == Scanned(Flush(cur) + alone.toks, alone.cur)
  }

  lemma {:induction false} ScanSplit(step: Stepper, a: seq<string>, b: seq<string>, line: nat, off: nat, x: Scanned)
    requires a != [] && b != [] && x == Scan(step, a, line, off, None)
    requires Afresh(step, x.cur, b[0], line + |a|, off + Bytes(a))
    ensures ScanAll(step, a + b, line, off) == ScanAll(step, a, line, off) +
            ScanAll(step, b, line + |a|, off + Bytes(a))
  {
    var y := Scan(step, b, line + |a|, off + Bytes(a), x.cur);
    var z := Scan(step, b, line + |a|, off + Bytes(a), None);
    ScanAppend(step, a, b, line, off, None);
    var alone := step(None, b[0], line + |a|, off + Bytes(a));
    Assoc(Flush(x.cur), alone.toks, Scan(step, b[1..], line + |a| + 1, off + Bytes(a) + |b[0]|, alone.cur).toks);
    assert y == Scanned(Flush(x.cur) + z.toks, z.cur);
    Regroup(x.toks, Flush(x.cur), z.toks, Flush(z.cur));
  }

  /** From anything in progress, raw starts afresh. */
  ghost predicate Fresh(step: Stepper, raw: string) {
    forall cur: Option<Folding>, line: nat, off: nat :: Afresh(step, cur, raw, line, off)
  }

  lemma {:induction false} StepFresh(raw: string)
    requires !Marked(Text(raw))
    ensures Fresh(Step, raw)
  {
    forall cur: Option<Folding>, line: nat, off: nat
      ensures Afresh(Step, cur, raw, line, off)
    {
      StepAfresh(cur, raw, line, off);
    }
  }

  lemma {:induction false} ScanJoin(step: Stepper, a: seq<string>, b: seq<string>, line: nat, off: nat)
    requires a != [] && b != [] && Fresh(step, b[0])
    ensures ScanAll(step, a + b, line, off) == ScanAll(step, a, line, off) +
            ScanAll(step, b, line + |a|, off + Bytes(a))
  {
    var x := Scan(step, a, line, off, None);
    assert Afresh(step, x.cur, b[0], line + |a|, off + Bytes(a));
    ScanSplit(step, a, b, line, off, x);
  }

  lemma {:induction false} StepAfresh(cur: Option<Folding>, raw: string, line: nat, off: nat)
    requires !Marked(Text(raw))
    ensures Afresh(Step, cur, raw, line, off)
  {
    StepAlone(cur, raw, line, off);
  }

  lemma {:induction false} Regroup<T>(a: seq<T>, b: seq<T>, c: seq<T>, d: seq<T>)
    ensures (a + (b + c)) + d == (a + b) + (c + d)
  {
  }

  lemma {:induction false} FirstOfLines(src: string)
    requires src != []
    ensures Lines(src) != [] && Lines(src)[0] == src[..FirstLine(src)]
  {
  }

  // ---- nothing is lost ----

  function Raws(ts: seq<Token>): seq<string> { if ts == [] then [] else [ts[0].raw] + Raws(ts[1..]) }

  function Concat<T>(ls: seq<seq<T>>): seq<T> { if ls == [] then [] else ls[0] + Concat(ls[1..]) }

  function RawOf(ts: seq<Token>): string { Concat(Raws(ts)) }

  lemma {:induction false} ConcatAppend<T>(a: seq<seq<T>>, b: seq<seq<T>>)
    ensures Concat(a + b) == Concat(a) + Concat(b)
    decreases |a|
  {
    if a == [] {
      assert a + b == b;
    } else {
      ConcatAppend(a[1..], b);
      assert (a + b)[0] == a[0] && (a + b)[1..] == a[1..] + b;
      Assoc(a[0], Concat(a[1..]), Concat(b));
    }
  }

  lemma {:induction false} RawsAppend(a: seq<Token>, b: seq<Token>)
    ensures Raws(a + b) == Raws(a) + Raws(b)
    decreases |a|
  {
    if a == [] {
      assert a + b == b;
    } else {
      RawsAppend(a[1..], b);
      assert (a + b)[0] == a[0] && (a + b)[1..] == a[1..] + b;
      Assoc([a[0].raw], Raws(a[1..]), Raws(b));
    }
  }

  lemma {:induction false} RawAppend(a: seq<Token>, b: seq<Token>)
    ensures RawOf(a + b) == RawOf(a) + RawOf(b)
  {
    RawsAppend(a, b);
    ConcatAppend(Raws(a), Raws(b));
  }

  lemma {:induction false} LinesConcat(src: string)
    ensures Concat(Lines(src)) == src
    decreases |src|
  {
    if src != [] {
      var n := FirstLine(src);
      LinesConcat(src[n..]);
      assert Lines(src)[1..] == Lines(src[n..]) && src == src[..n] + src[n..];
    }
  }

  function HeldRaw(cur: Option<Folding>): string { RawOf(Flush(cur)) }

  /** A step loses nothing of its line, where held is the source of what is in progress. */
  ghost predicate Keeps(step: Stepper, held: Option<Folding> -> string) {
    forall cur: Option<Folding>, raw: string, line: nat, off: nat :: KeepsLine(step, held, cur, raw, line, off)
  }

  predicate KeepsLine(step: Stepper, held: Option<Folding> -> string, cur: Option<Folding>, raw: string, line: nat,
                      off: nat) {
    var r := step(cur, raw, line, off);
    RawOf(r.toks) + held(r.cur) == held(cur) + raw
  }

  lemma {:induction false} ScanRaw(step: Stepper, held: Option<Folding> -> string, ls: seq<string>, line: nat, off: nat,
                                   cur: Option<Folding>)
    requires Keeps(step, held)
    ensures var r := Scan(step, ls, line, off, cur); RawOf(r.toks) + held(r.cur) == held(cur) + Concat(ls)
    decreases |ls|
  {
    if ls == [] {
      assert [] + held(cur) == held(cur) + [];
    } else {
      var first := step(cur, ls[0], line, off);
      var rest := Scan(step, ls[1..], line + 1, off + |ls[0]|, first.cur);
      assert KeepsLine(step, held, cur, ls[0], line, off);
      ScanRaw(step, held, ls[1..], line + 1, off + |ls[0]|, first.cur);
      RawAppend(first.toks, rest.toks);
      RawJoin(RawOf(first.toks), RawOf(rest.toks), held(rest.cur), held(first.cur), held(cur), ls[0], Concat(ls[1..]));
    }
  }

  lemma {:induction false} RawJoin(a: string, b: string, c: string, d: string, e: string, x: string, y: string)
    requires b + c == d + y && a + d == e + x
    ensures (a + b) + c == e + (x + y)
  {
    assert (a + b) + c == a + (b + c);
    assert a + (d + y) == (a + d) + y;
    assert (e + x) + y == e + (x + y);
  }

  lemma {:induction false} StepRaw(cur: Option<Folding>, raw: string, line: nat, off: nat)
    ensures var r := Step(cur, raw, line, off); RawOf(r.toks) + RawOf(Flush(r.cur)) == RawOf(Flush(cur)) + raw
  {
    var (kind, isCont) := Classify(Text(raw), cur.Some?);
    if isCont {
      var f := cur.value;
      OneRaw(f.token.(value := Join(f.segs)));
      OneRaw(Flush(Some(Extend(f, raw, line, off)))[0]);
      assert [] + (f.token.raw + raw) == f.token.raw + raw;
    } else if kind.Attribute? {
      OneRaw(Flush(Some(Begin(raw, line, off)))[0]);
    } else {
      OneRaw(Trivia(kind, raw, line, off));
      RawAppend(Flush(cur), [Trivia(kind, raw, line, off)]);
      assert (RawOf(Flush(cur)) + raw) + [] == RawOf(Flush(cur)) + raw;
    }
  }

  lemma {:induction false} OneRaw(t: Token)
    ensures RawOf([t]) == t.raw
  {
    assert [t][1..] == [];
    assert Raws([t]) == [t.raw] + [];
    var one := [t.raw];
    assert Concat(one) == one[0] + Concat(one[1..]) && one[1..] == [];
    assert t.raw + [] == t.raw;
  }

  /** Every byte of the input is in exactly one token, in order. */
  lemma {:induction false} Lossless(src: string, line: nat, off: nat)
    ensures RawOf(Tokens(src, line, off)) == src
  {
    var r := Scan(Step, Lines(src), line, off, None);
    forall cur: Option<Folding>, raw: string, line: nat, off: nat
      ensures KeepsLine(Step, HeldRaw, cur, raw, line, off)
    {
      StepRaw(cur, raw, line, off);
    }
    ScanRaw(Step, HeldRaw, Lines(src), line, off, None);
    LinesConcat(src);
    RawAppend(r.toks, Flush(r.cur));
    assert HeldRaw(None) + src == src;
  }

  // ---- the tokenizer ----

  /** scanLines: src's lines, in order. */
  method ScanLines(src: string) returns (ls: seq<string>)
    ensures ls == Lines(src)
  {
    ls := [];
    var rest := src;
    while rest != []
      invariant ls + Lines(rest) == Lines(src)
      decreases |rest|
    {
      var n := FirstLine(rest);
      Assoc(ls, [rest[..n]], Lines(rest[n..]));
      ls, rest := ls + [rest[..n]], rest[n..];
    }
    assert ls + [] == ls;
  }

  /** What is left to scan from the k-th line, o bytes on, completes toks. */
  ghost predicate Progress(step: Stepper, ls: seq<string>, line: nat, off: nat, k: nat, o: nat, toks: seq<Token>,
                           cur: Option<Folding>)
    requires k <= |ls|
  {
    var rest := Scan(step, ls[k..], line + k, off + o, cur);
    Scan(step, ls, line, off, None) == Scanned(toks + rest.toks, rest.cur)
  }

  lemma {:induction false} ProgressStep(step: Stepper, ls: seq<string>, line: nat, off: nat, k: nat, o: nat,
                                        toks: seq<Token>, cur: Option<Folding>, one: Scanned)
    requires k < |ls| && Progress(step, ls, line, off, k, o, toks, cur) && one == step(cur, ls[k], line + k, off + o)
    ensures Progress(step, ls, line, off, k + 1, o + |ls[k]|, toks + one.toks, one.cur)
  {
    assert ls[k..][0] == ls[k] && ls[k..][1..] == ls[k + 1..];
    Assoc(toks, one.toks, Scan(step, ls[k + 1..], line + k + 1, off + o + |ls[k]|, one.cur).toks);
  }

  lemma {:induction false} ProgressStart(step: Stepper, ls: seq<string>, line: nat, off: nat)
    ensures Progress(step, ls, line, off, 0, 0, [], None)
  {
    assert ls[0..] == ls;
    var r := Scan(step, ls, line, off, None);
    assert [] + r.toks == r.toks;
  }

  lemma {:induction false} ProgressEnd(step: Stepper, ls: seq<string>, line: nat, off: nat, o: nat, toks: seq<Token>,
                                       cur: Option<Folding>)
    requires Progress(step, ls, line, off, |ls|, o, toks, cur)
    ensures ScanAll(step, ls, line, off) == toks + Flush(cur)
  {
    assert ls[|ls|..] == [];
    assert toks + [] == toks;
  }

  /** What TokenizeAt updates: the tokens done, every segment so far, and the attribute in progress, whose
      segments are those from curSeg on. */
  class Tokenizer {
    var toks: seq<Token>
    var all: seq<Segment>
    var haveCur: bool
    var cur: Token
    var curSeg: nat
    var segs: seq<string>
    var valOff: nat

    constructor ()
      ensures toks == [] && Valid() && Fold() == None
    {
      toks, all, haveCur, segs := [], [], false, [];
      cur, curSeg, valOff := Token(Attribute, "", "", "", Span(0, 0, 0, 0, 0, 0), []), 0, 0;
    }

    ghost predicate Valid()
      reads this
    {
      curSeg <= |all|
    }

    /** The attribute in progress. */
    ghost function Fold(): Option<Folding>
      reads this
      requires Valid()
    {
      if haveCur then Some(Folding(cur.(segments := all[curSeg..]), segs, valOff)) else None
    }

    method FlushCurrent()
      requires Valid()
      modifies this`toks, this`haveCur
      ensures Valid() && !haveCur && toks == old(toks) + Flush(old(Fold()))
    {
      if haveCur {
        toks := toks + [cur.(value := Join(segs), segments := all[curSeg..])];
        haveCur := false;
      }
    }

    /** A continuation line, at a line and a byte of the stream. */
    method Continue(raw: string, line: nat, off: nat)
      requires Valid() && haveCur
      modifies this`cur, this`segs, this`all, this`valOff
      ensures Valid() && Fold() == Some(Extend(old(Fold()).value, raw, line, off))
    {
      var text := Text(raw);
      var (from, to) := ContValue(text);
      var segment := Segment(valOff, valOff + (to - from), line, from + 1, off + from);
      cur := cur.(raw := cur.raw + raw, span :=
        cur.span.(endLine := line, endCol := |text| + 1, endByte := off + |raw|));
      segs := segs + [text[from..to]];
      all := all + [segment];
      valOff := valOff + (to - from) + 1;
      assert all[curSeg..] == old(all)[curSeg..] + [segment];
    }

    /** The first line of an attribute. */
    method Start(raw: string, line: nat, off: nat)
      requires Valid() && !haveCur
      modifies this`cur, this`segs, this`all, this`valOff, this`haveCur, this`curSeg
      ensures Valid() && Fold() == Some(Begin(raw, line, off))
    {
      var text := Text(raw);
      var (from, to) := AttrValue(text);
      var segment := Segment(0, to - from, line, from + 1, off + from);
      cur, haveCur, curSeg :=
        Token(Attribute, AttrName(text), "", raw, LineSpan(text, raw, line, off), []), true, |all|;
      segs := [text[from..to]];
      all := all + [segment];
      valOff := to - from + 1;
      assert all[curSeg..] == [segment];
    }

    method Line(raw: string, line: nat, off: nat) returns (ghost one: Scanned)
      requires Valid()
      modifies this
      ensures Valid() && one == Step(old(Fold()), raw, line, off) && toks == old(toks) + one.toks && Fold() == one.cur
    {
      one := Step(Fold(), raw, line, off);
      var (kind, isCont) := Classify(Text(raw), haveCur);
      if isCont {
        Continue(raw, line, off);
      } else {
        FlushCurrent();
        if kind.Attribute? {
          Start(raw, line, off);
        } else {
          toks := toks + [Trivia(kind, raw, line, off)];
        }
      }
    }
  }

  /** step does what Step does. */
  ghost predicate IsStep(step: Stepper) {
    forall cur: Option<Folding>, raw: string, line: nat, off: nat {:trigger Step(cur, raw, line, off)} ::
      step(cur, raw, line, off) == Step(cur, raw, line, off)
  }

  /** The k-th line goes in. */
  method Take(t: Tokenizer, ls: seq<string>, line: nat, off: nat, k: nat, start: nat, ghost step: Stepper,
              ghost done: seq<Token>,
              ghost fold: Option<Folding>)
    returns (ghost done': seq<Token>, ghost fold': Option<Folding>)
    requires IsStep(step) && k < |ls| && t.Valid() && t.toks == done && t.Fold() == fold
    requires Progress(step, ls, line, off, k, start, done, fold)
    modifies t
    ensures t.Valid() && t.toks == done' && t.Fold() == fold'
    ensures Progress(step, ls, line, off, k + 1, start + |ls[k]|, done', fold')
  {
    ghost var one := t.Line(ls[k], line + k, off + start);
    ProgressStep(step, ls, line, off, k, start, done, fold, one);
    done', fold' := done + one.toks, one.cur;
  }

  /** Every line goes in. */
  method TakeAll(t: Tokenizer, ls: seq<string>, line: nat, off: nat, ghost step: Stepper)
    returns (ghost done: seq<Token>, ghost fold: Option<Folding>)
    requires IsStep(step) && t.Valid() && t.toks == [] && t.Fold() == None
    modifies t
    ensures t.Valid() && t.toks == done && t.Fold() == fold && ScanAll(step, ls, line, off) == done + Flush(fold)
  {
    var start: nat := 0;
    done, fold := [], None;
    ProgressStart(step, ls, line, off);
    for k := 0 to |ls|
      invariant t.Valid() && t.toks == done && t.Fold() == fold
      invariant Progress(step, ls, line, off, k, start, done, fold)
    {
      done, fold := Take(t, ls, line, off, k, start, step, done, fold);
      start := start + |ls[k]|;
    }
    ProgressEnd(step, ls, line, off, start, done, fold);
  }

  /** TokenizeAt: the tokens of src, which starts at a line and a byte of a stream. */
  method TokenizeAt(src: string, line: nat, byteOffset: nat) returns (toks: seq<Token>)
    ensures toks == Tokens(src, line, byteOffset)
  {
    var ls := ScanLines(src);
    var t := new Tokenizer();
    ghost var done, fold := TakeAll(t, ls, line, byteOffset, Step);
    t.FlushCurrent();
    toks := t.toks;
  }
}
