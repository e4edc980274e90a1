/** What lines and tokens are, by their characters (lexer/lexer.go:190-385). */
module LexerLines {
  import opened Collections
  import opened Prefixes
  import opened Lexer
  import opened Streams

  // ---- lines ----

  /** A line ends at its first newline and has one, unless it is the last. */
  ghost predicate AreLines(ls: seq<string>) {
    && (forall i :: 0 <= i < |ls| ==> ls[i] != [] && forall j :: 0 <= j < |ls[i]| - 1 ==> ls[i][j] != '\n')
    && (forall i :: 0 <= i < |ls| - 1 ==> ls[i][|ls[i]| - 1] == '\n')
  }

  /** text is what line holds before its end: a "\n", a "\r\n", a "\r" that is last, or nothing. */
  predicate IsText(line: string, text: string) {
    || (line == text + "\r\n")
    || (line == text + "\n" && (text == [] || text[|text| - 1] != '\r'))
    || (line == text + "\r")
    || (line == text && (text == [] || (text[|text| - 1] != '\n' && text[|text| - 1] != '\r')))
  }

  lemma {:induction false} FirstLineIs(s: string)
    requires s != []
    ensures forall j :: 0 <= j < FirstLine(s) - 1 ==> s[j] != '\n'
    ensures FirstLine(s) < |s| ==> s[FirstLine(s) - 1] == '\n'
    decreases |s|
  {
    if s[0] != '\n' && s[1..] != [] { FirstLineIs(s[1..]); }
  }

  lemma {:induction false} LinesCons(l: string, ls: seq<string>)
    requires AreLines(ls) && l != [] && forall j :: 0 <= j < |l| - 1 ==> l[j] != '\n'
    requires ls != [] ==> l[|l| - 1] == '\n'
    ensures AreLines([l] + ls)
  {
  }

  lemma {:induction false} LinesAre(src: string)
    ensures AreLines(Lines(src)) && Concat(Lines(src)) == src
    decreases |src|
  {
    LinesConcat(src);
    if src != [] {
      var n, ls := FirstLine(src), Lines(src);
      FirstLineIs(src);
      LinesAre(src[n..]);
      LinesCons(src[..n], Lines(src[n..]));
    }
  }

  lemma {:induction false} TextIs(line: string)
    ensures IsText(line, Text(line))
  {
    var a := DropLast(line, '\n');
    var b := DropLast(a, '\r');
    if a != line { assert line == a + "\n"; }
    if b != a { assert a == b + "\r"; }
    if a != line && b != a { assert (b + "\r") + "\n" == b + "\r\n"; }
  }

  // ---- kinds of line ----

  predicate AllSpaces(s: string) { forall i :: 0 <= i < |s| ==> s[i] == ' ' || s[i] == '\t' }

  /** The k-th character is a ':', the first, and no '#' is before it. */
  predicate NameEnds(text: string, k: int) {
    0 <= k < |text| && text[k] == ':' && forall j :: 0 <= j < k ==> text[j] != ':' && text[j] != '#'
  }

  predicate Indented(text: string) { text != [] && (text[0] == ' ' || text[0] == '\t' || text[0] == '+') }

  /** A line that starts an attribute. */
  ghost predicate OpensLine(text: string) { !Indented(text) && exists k :: NameEnds(text, k) }

  /** A line that goes on with one. */
  predicate ContinuesLine(text: string) { Indented(text) && !AllSpaces(text) }

  lemma {:induction false} BlankIs(text: string)
    ensures IsBlankLine(text) <==> AllSpaces(text)
    decreases |text|
  {
    if text != [] {
      BlankIs(text[1..]);
      assert AllSpaces(text) ==> forall i :: 0 <= i < |text[1..]| ==> text[1..][i] == text[i + 1];
      assert Space(text[0]) && AllSpaces(text[1..]) ==> forall i :: 0 < i < |text| ==> text[i] == text[1..][i - 1];
    }
  }

  lemma {:induction false} ColonIs(text: string)
    ensures ColonFirst(text) <==> exists k :: NameEnds(text, k)
    decreases |text|
  {
    if text != [] && text[0] == ':' {
      assert NameEnds(text, 0);
    } else if text != [] && text[0] != '#' {
      ColonIs(text[1..]);
      if ColonFirst(text) {
        var k :| NameEnds(text[1..], k);
        assert NameEnds(text, k + 1);
      }
      if k :| NameEnds(text, k) { assert NameEnds(text[1..], k - 1); }
    }
  }

  lemma {:induction false} LineIs(text: string)
    ensures IsBlankLine(text) <==> AllSpaces(text)
    ensures Marked(text) <==> ContinuesLine(text)
    ensures StartsAttribute(text) <==> OpensLine(text)
    ensures OpensLine(text) ==> text != [] && !AllSpaces(text) && text[0] != '#'
  {
    BlankIs(text);
    ColonIs(text);
  }

  // ---- names and values ----

  /** v is s without the spaces and tabs around it. */
  ghost predicate IsTrimmed(s: string, v: string) {
    && (exists a: string, b: string :: AllSpaces(a) && AllSpaces(b) && s == a + v + b)
    && (v != [] ==> !AllSpaces(v[..1]) && !AllSpaces(v[|v| - 1..]))
  }

  lemma {:induction false} SkipIs(s: string, i: nat)
    requires i <= |s|
    ensures var k := SkipSpaces(s, i); AllSpaces(s[i..k]) && (k < |s| ==> !Space(s[k]))
    decreases |s| - i
  {
    if i < |s| && Space(s[i]) {
      SkipIs(s, i + 1);
      var k := SkipSpaces(s, i + 1);
      assert s[i..k] == [s[i]] + s[i + 1..k];
    }
  }

  lemma {:induction false} BackIs(s: string, i: nat, j: nat)
    requires i <= j <= |s|
    ensures var k := BackSpaces(s, i, j); AllSpaces(s[k..j]) && (k > i ==> !Space(s[k - 1]))
    decreases j
  {
    if j > i && Space(s[j - 1]) {
      BackIs(s, i, j - 1);
      var k := BackSpaces(s, i, j - 1);
      assert s[k..j] == s[k..j - 1] + [s[j - 1]];
    }
  }

  lemma {:induction false} TrimIs(content: string, from: nat)
    requires from <= |content|
    ensures var (i, j) := TrimPos(content, from); IsTrimmed(content[from..], content[i..j])
  {
    var i := SkipSpaces(content, from);
    var j := BackSpaces(content, i, |content|);
    SkipIs(content, from);
    BackIs(content, i, |content|);
    var a, v, b := content[from..i], content[i..j], content[j..|content|];
    assert content[from..] == a + v + b;
    assert AllSpaces(a) && AllSpaces(b);
    if v != [] {
      assert v[..1][0] == content[i] && !Space(v[..1][0]);
      assert v[|v| - 1..][0] == content[j - 1] && !Space(v[|v| - 1..][0]);
    }
  }

  lemma {:induction false} IndexIs(s: string, c: char)
    ensures var n := IndexOf(s, c); (n < |s| ==> s[n] == c) && forall j :: 0 <= j < n ==> s[j] != c
    decreases |s|
  {
    if s != [] && s[0] != c { IndexIs(s[1..], c); }
  }

  /** text up to its comment. */
  predicate UpToComment(text: string, h: int) {
    0 <= h <= |text| && (h < |text| ==> text[h] == '#') && forall j :: 0 <= j < h ==> text[j] != '#'
  }

  /** name is low's, every ASCII capital made small. */
  predicate IsLowered(low: string, name: string) {
    |low| == |name| && forall i :: 0 <= i < |name| ==>
      if 'A' <= name[i] <= 'Z' then low[i] as int - 'a' as int == name[i] as int - 'A' as int else low[i] == name[i]
  }

  lemma {:induction false} LowerIs(s: string)
    ensures IsLowered(LowerAll(s), s)
    decreases |s|
  {
    if s != [] { LowerIs(s[1..]); }
  }

  /** The name and the first piece of the value of an attribute whose first line is text. */
  ghost predicate IsHead(text: string, name: string, piece: string) {
    exists k, h, given :: HeadAt(text, k, h, given, name, piece)
  }

  /** The name ends at k and is given so, and what is before the comment ends at h. */
  ghost predicate HeadAt(text: string, k: int, h: int, given: string, name: string, piece: string) {
    && NameEnds(text, k) && UpToComment(text, h) && k < h
    && IsTrimmed(text[..k], given) && IsLowered(name, given) && IsTrimmed(text[k + 1..h], piece)
  }

  /** The piece of the value on a line that continues an attribute. */
  ghost predicate IsMore(text: string, piece: string) {
    exists h :: MoreAt(text, h, piece)
  }

  ghost predicate MoreAt(text: string, h: int, piece: string) {
    UpToComment(text, h) && h > 0 && IsTrimmed(text[if text[0] == '+' then 1 else 0..h], piece)
  }

  lemma {:induction false} HeadIs(text: string)
    requires StartsAttribute(text)
    ensures var (i, j) := AttrValue(text); IsHead(text, AttrName(text), text[i..j])
  {
    ColonIs(text);
    var k :| NameEnds(text, k);
    var h := IndexOf(text, '#');
    ColonAt(text, k, h);
    var given := NameIs(text, k, h);
    ValueIs(text, k, h);
    var (i, j) := AttrValue(text);
    HeadFrom(text, k, h, given, AttrName(text), text[i..j]);
  }

  lemma {:induction false} HeadFrom(text: string, k: int, h: int, given: string, name: string, piece: string)
    requires NameEnds(text, k) && UpToComment(text, h) && k < h
    requires IsTrimmed(text[..k], given) && IsLowered(name, given) && IsTrimmed(text[k + 1..h], piece)
    ensures IsHead(text, name, piece)
  {
    assert HeadAt(text, k, h, given, name, piece);
  }

  lemma {:induction false} NameIs(text: string, k: int, h: int) returns (given: string)
    requires 0 <= k < h <= |text| && h == IndexOf(text, '#') && IndexOf(text[..h], ':') == k
    ensures IsTrimmed(text[..k], given) && IsLowered(AttrName(text), given)
  {
    var name := text[..h][..k];
    var (a, b) := TrimPos(name, 0);
    TrimIs(name, 0);
    given := name[a..b];
    LowerIs(given);
    assert name[0..] == name && name == text[..k];
    assert AttrName(text) == LowerAll(given);
  }

  lemma {:induction false} ValueIs(text: string, k: int, h: int)
    requires 0 <= k < h <= |text| && h == IndexOf(text, '#') && IndexOf(text[..h], ':') == k
    ensures var (i, j) := AttrValue(text); IsTrimmed(text[k + 1..h], text[i..j])
  {
    var (i, j) := TrimPos(text[..h], k + 1);
    TrimIs(text[..h], k + 1);
    Within(text, h, k + 1, h);
    Within(text, h, i, j);
    assert text[..h][k + 1..] == text[..h][k + 1..h];
  }

  lemma {:induction false} Within(text: string, h: nat, i: nat, j: nat)
    requires i <= j <= h <= |text|
    ensures text[..h][i..j] == text[i..j]
  {
  }

  lemma {:induction false} ColonAt(text: string, k: int, h: int)
    requires NameEnds(text, k) && h == IndexOf(text, '#')
    ensures k < h && IndexOf(text[..h], ':') == k && UpToComment(text, h)
  {
    IndexIs(text, '#');
    IndexIs(text[..h], ':');
  }

  lemma {:induction false} MoreIs(text: string)
    requires Marked(text)
    ensures var (i, j) := ContValue(text); IsMore(text, text[i..j])
  {
    var h := IndexOf(text, '#');
    IndexIs(text, '#');
    var content := text[..h];
    var from := if text[0] == '+' then 1 else 0;
    TrimIs(content, from);
    var (i, j) := TrimPos(content, from);
    assert content[0] == text[0] && ContValue(text) == (i, j);
    Within(text, h, from, h);
    Within(text, h, i, j);
    assert content[from..] == content[from..h];
    assert MoreAt(text, h, text[i..j]);
  }

  // ---- tokens ----

  /** How many lines the token that starts at the first has: an attribute's first line and those that go on
      with it, or one. */
  ghost function Extent(ls: seq<string>): (n: nat)
    ensures n <= |ls| && (ls != [] ==> n > 0)
  {
    if ls == [] then 0 else if OpensLine(Text(ls[0])) then 1 + More(ls[1..]) else 1
  }

  function More(ls: seq<string>): (n: nat)
    ensures n <= |ls|
  {
    if ls == [] || !ContinuesLine(Text(ls[0])) then 0 else 1 + More(ls[1..])
  }

  /** The pieces of an attribute's value, line by line. */
  ghost predicate AreRest(ls: seq<string>, pieces: seq<string>) {
    |pieces| == |ls| && forall i :: 0 < i < |ls| ==> IsMore(Text(ls[i]), pieces[i])
  }

  /** The pieces in v, a newline between each and the next. */
  predicate IsJoined(v: string, pieces: seq<string>)
    decreases |pieces|
  {
    if pieces == [] then v == []
    else
      pieces[0] <= v &&
      var rest := v[|pieces[0]|..];
      if |pieces| == 1 then rest == [] else rest != [] && rest[0] == '\n' && IsJoined(rest[1..], pieces[1..])
  }

  lemma {:induction false} JoinedSnoc(v: string, pieces: seq<string>, piece: string)
    requires pieces != [] && IsJoined(v, pieces)
    ensures IsJoined(v + "\n" + piece, pieces + [piece])
    decreases |pieces|
  {
    var w, all := v + "\n" + piece, pieces + [piece];
    var n := |pieces[0]|;
    assert all[0] == pieces[0] && all[1..] == pieces[1..] + [piece] && w[..n] == v[..n];
    if |pieces| == 1 {
      assert w[n..] == "\n" + piece && w[n..][1..] == piece && all[1..] == [piece];
      assert piece[|piece|..] == [];
    } else {
      JoinedSnoc(v[n..][1..], pieces[1..], piece);
      assert w[n..][1..] == v[n..][1..] + "\n" + piece;
    }
  }

  lemma {:induction false} JoinIs(pieces: seq<string>)
    ensures IsJoined(Join(pieces), pieces)
    decreases |pieces|
  {
    if |pieces| == 1 {
      assert pieces[0][|pieces[0]|..] == [];
    } else if pieces != [] {
      var n := |pieces| - 1;
      JoinIs(pieces[..n]);
      JoinedSnoc(Join(pieces[..n]), pieces[..n], pieces[n]);
      assert pieces[..n] + [pieces[n]] == pieces;
    }
  }

  /** t is the token of these lines: what kind is decided by the first, and an attribute has the name there and a
      value of the pieces on each. */
  ghost predicate IsTokenOf(t: Token, ls: seq<string>) {
    && ls != [] && t.raw == Concat(ls)
    && t.span.startCol == 1 && t.span.endCol == |Text(ls[|ls| - 1])| + 1
    && var text := Text(ls[0]);
       && (t.kind.Blank? <==> AllSpaces(text))
       && (t.kind.Comment? <==> text != [] && text[0] == '#')
       && (t.kind.Attribute? <==> OpensLine(text))
       && (if t.kind.Attribute?
           then exists pieces: seq<string> ::
                  AreRest(ls, pieces) && IsHead(text, t.name, pieces[0]) && IsJoined(t.value, pieces)
           else t.name == "" && t.value == "")
  }

  /** The lines are read as the tokens, one after another: the first n make one of them. */
  ghost predicate ReadsBy(extent: seq<string> -> nat, holds: (Token, seq<string>) -> bool, ts: seq<Token>,
                          ls: seq<string>)
    decreases |ls|
  {
    if ls == [] then ts == []
    else
      var n := extent(ls);
      ts != [] && 0 < n <= |ls| && holds(ts[0], ls[..n]) && ReadsBy(extent, holds, ts[1..], ls[n..])
  }

  ghost predicate Reads(ts: seq<Token>, ls: seq<string>) { ReadsBy(Extent, IsTokenOf, ts, ls) }

  lemma {:induction false} MoreAre(ls: seq<string>)
    ensures forall i :: 0 <= i < More(ls) ==> ContinuesLine(Text(ls[i]))
    ensures More(ls) < |ls| ==> !ContinuesLine(Text(ls[More(ls)]))
    decreases |ls|
  {
    if ls != [] && ContinuesLine(Text(ls[0])) { MoreAre(ls[1..]); }
  }

  /** An attribute in progress after these lines. */
  ghost predicate IsFolding(f: Folding, ls: seq<string>) {
    && ls != [] && f.token.raw == Concat(ls) && f.token.kind.Attribute?
    && f.token.span.startCol == 1 && f.token.span.endCol == |Text(ls[|ls| - 1])| + 1
    && AreRest(ls, f.segs) && IsHead(Text(ls[0]), f.token.name, f.segs[0])
  }

  lemma {:induction false} BeginIs(raw: string, line: nat, off: nat)
    requires StartsAttribute(Text(raw))
    ensures IsFolding(Begin(raw, line, off), [raw])
  {
    HeadIs(Text(raw));
    assert Concat([raw]) == raw by { assert [raw][1..] == [] && raw + [] == raw; }
  }

  lemma {:induction false} ExtendIs(f: Folding, ls: seq<string>, raw: string, line: nat, off: nat)
    requires IsFolding(f, ls) && Marked(Text(raw))
    ensures IsFolding(Extend(f, raw, line, off), ls + [raw])
  {
    MoreIs(Text(raw));
    ConcatAppend(ls, [raw]);
    assert Concat([raw]) == raw by { assert [raw][1..] == [] && raw + [] == raw; }
    var text := Text(raw);
    var (i, j) := ContValue(text);
    AreRestNext(ls, f.segs, raw, text[i..j]);
  }

  lemma {:induction false} AreRestNext(ls: seq<string>, pieces: seq<string>, raw: string, piece: string)
    requires ls != [] && AreRest(ls, pieces) && IsMore(Text(raw), piece)
    ensures AreRest(ls + [raw], pieces + [piece])
  {
  }

  /** A line that continues an attribute keeps ok of the one in progress and its lines. */
  ghost predicate Grows(step: Stepper, ok: (Folding, seq<string>) -> bool) {
    forall f: Folding, ls: seq<string>, raw: string, line: nat, off: nat
      {:trigger ok(f, ls), step(Some(f), raw, line, off)} ::
      ok(f, ls) && Marked(Text(raw)) ==>
        var r := step(Some(f), raw, line, off);
        r.toks == [] && r.cur.Some? && ok(r.cur.value, ls + [raw])
  }

  /** The lines of an attribute, up to the n-th, leave it in progress. */
  lemma {:induction false} FoldsAll(step: Stepper, ok: (Folding, seq<string>) -> bool, ls: seq<string>, line: nat,
                                    off: nat, n: nat)
    requires Grows(step, ok) && 1 <= n <= |ls| && forall i :: 0 < i < n ==> Marked(Text(ls[i]))
    requires var r := step(None, ls[0], line, off); r.toks == [] && r.cur.Some? && ok(r.cur.value, [ls[0]])
    ensures var r := Scan(step, ls[..n], line, off, None); r.toks == [] && r.cur.Some? && ok(r.cur.value, ls[..n])
    decreases n
  {
    if n == 1 {
      ScanOne(step, ls[0], line, off, None);
      assert ls[..1] == [ls[0]];
    } else {
      var a, raw := ls[..n - 1], ls[n - 1];
      FoldsAll(step, ok, ls, line, off, n - 1);
      assert ls[..n] == a + [raw];
      ScanAppend(step, a, [raw], line, off, None);
      var f := Scan(step, a, line, off, None).cur.value;
      ScanOne(step, raw, line + |a|, off + Bytes(a), Some(f));
      assert ok(f, a);
    }
  }

  lemma {:induction false} ScanOne(step: Stepper, raw: string, line: nat, off: nat, cur: Option<Folding>)
    ensures Scan(step, [raw], line, off, cur) == step(cur, raw, line, off)
  {
    assert [raw][1..] == [] && [raw][0] == raw;
    var one := step(cur, raw, line, off);
    assert one.toks + [] == one.toks;
  }

  lemma {:induction false} StepExtends(f: Folding, raw: string, line: nat, off: nat)
    requires Marked(Text(raw))
    ensures Step(Some(f), raw, line, off) == Scanned([], Some(Extend(f, raw, line, off)))
  {
  }

  lemma {:induction false} StepBegins(raw: string, line: nat, off: nat)
    requires OpensLine(Text(raw))
    ensures Step(None, raw, line, off) == Scanned([], Some(Begin(raw, line, off)))
  {
    LineIs(Text(raw));
  }

  /** The lines of an attribute leave it in progress. */
  lemma {:induction false} AttributeFolds(ls: seq<string>, line: nat, off: nat)
    requires ls != [] && OpensLine(Text(ls[0])) && forall i :: 0 < i < |ls| ==> Marked(Text(ls[i]))
    ensures var r := Scan(Step, ls, line, off, None); r.toks == [] && r.cur.Some? && IsFolding(r.cur.value, ls)
  {
    var ok := (f: Folding, ls: seq<string>) => IsFolding(f, ls);
    forall f: Folding, ls: seq<string>, raw: string, line: nat, off: nat | ok(f, ls) && Marked(Text(raw))
      ensures var r := Step(Some(f), raw, line, off); r.toks == [] && r.cur.Some? && ok(r.cur.value, ls + [raw])
    {
      StepExtends(f, raw, line, off);
      ExtendIs(f, ls, raw, line, off);
    }
    LineIs(Text(ls[0]));
    StepBegins(ls[0], line, off);
    BeginIs(ls[0], line, off);
    FoldsAll(Step, ok, ls, line, off, |ls|);
    assert ls[..|ls|] == ls;
  }

  lemma {:induction false} FlushedIs(f: Folding, ls: seq<string>) returns (t: Token)
    requires IsFolding(f, ls) && OpensLine(Text(ls[0]))
    ensures Flush(Some(f)) == [t] && IsTokenOf(t, ls)
  {
    LineIs(Text(ls[0]));
    JoinIs(f.segs);
    t := f.token.(value := Join(f.segs));
  }

  /** The first token of the lines. */
  lemma {:induction false} FirstReads(ls: seq<string>, line: nat, off: nat) returns (t: Token)
    requires ls != []
    ensures ScanAll(Step, ls[..Extent(ls)], line, off) == [t] && IsTokenOf(t, ls[..Extent(ls)])
  {
    var a := ls[..Extent(ls)];
    if OpensLine(Text(ls[0])) {
      MoreAre(ls[1..]);
      forall i | 0 < i < |a| ensures Marked(Text(a[i])) {
        assert a[i] == ls[1..][i - 1];
        LineIs(Text(a[i]));
      }
      AttributeFolds(a, line, off);
      t := AttributeReads(a, line, off);
    } else {
      t := OneTrivia(a, line, off);
    }
  }

  lemma {:induction false} AttributeReads(ls: seq<string>, line: nat, off: nat) returns (t: Token)
    requires ls != [] && OpensLine(Text(ls[0]))
    requires var r := Scan(Step, ls, line, off, None); r.toks == [] && r.cur.Some? && IsFolding(r.cur.value, ls)
    ensures ScanAll(Step, ls, line, off) == [t] && IsTokenOf(t, ls)
  {
    var r := Scan(Step, ls, line, off, None);
    OnlyHeld(Step, ls, line, off, r);
    t := FlushedIs(r.cur.value, ls);
  }

  lemma {:induction false} OnlyHeld(step: Stepper, ls: seq<string>, line: nat, off: nat, r: Scanned)
    requires r == Scan(step, ls, line, off, None) && r.toks == []
    ensures ScanAll(step, ls, line, off) == Flush(r.cur)
  {
    assert [] + Flush(r.cur) == Flush(r.cur);
  }

  lemma {:induction false} OneTrivia(ls: seq<string>, line: nat, off: nat) returns (t: Token)
    requires |ls| == 1 && !OpensLine(Text(ls[0]))
    ensures ScanAll(Step, ls, line, off) == [t] && IsTokenOf(t, ls)
    ensures Scan(Step, ls, line, off, None).cur.None?
  {
    LineIs(Text(ls[0]));
    assert ls == [ls[0]] && ls[1..] == [];
    assert Concat(ls) == ls[0] by { assert ls[0] + [] == ls[0]; }
    t := Trivia(Classify(Text(ls[0]), false).0, ls[0], line, off);
    assert Step(None, ls[0], line, off) == Scanned([t], None);
    ScanOne(Step, ls[0], line, off, None);
    assert ScanAll(Step, ls, line, off) == [t] + [];
  }

  /** What follows the first token of the lines is read apart. */
  predicate Apart(step: Stepper, a: seq<string>, b: seq<string>, line: nat, off: nat) {
    ScanAll(step, a + b, line, off) == ScanAll(step, a, line, off) + ScanAll(step, b, line + |a|, off + Bytes(a))
  }

  lemma {:induction false} AttributeEnds(ls: seq<string>)
    requires ls != [] && OpensLine(Text(ls[0])) && Extent(ls) < |ls|
    ensures Fresh(Step, ls[Extent(ls)])
  {
    MoreAre(ls[1..]);
    var raw := ls[1..][Extent(ls) - 1];
    LineIs(Text(raw));
    StepFresh(raw);
  }

  lemma {:induction false} RestReads(ls: seq<string>, line: nat, off: nat)
    requires ls != []
    ensures Apart(Step, ls[..Extent(ls)], ls[Extent(ls)..], line, off)
  {
    var a, b := ls[..Extent(ls)], ls[Extent(ls)..];
    if b == [] {
      NothingLeft(Step, a, line, off);
    } else if OpensLine(Text(ls[0])) {
      AttributeEnds(ls);
      ScanJoin(Step, a, b, line, off);
    } else {
      var t := OneTrivia(a, line, off);
      NothingHeld(Step, a, b, line, off);
    }
  }

  lemma {:induction false} NothingLeft(step: Stepper, a: seq<string>, line: nat, off: nat)
    ensures Apart(step, a, [], line, off)
  {
    assert a + [] == a;
    assert ScanAll(step, [], line + |a|, off + Bytes(a)) == [];
  }

  lemma {:induction false} NothingHeld(step: Stepper, a: seq<string>, b: seq<string>, line: nat, off: nat)
    requires a != [] && b != [] && Scan(step, a, line, off, None).cur.None?
    ensures Apart(step, a, b, line, off)
  {
    var alone := step(None, b[0], line + |a|, off + Bytes(a));
    assert Flush(None) + alone.toks == alone.toks;
    ScanSplit(step, a, b, line, off, Scan(step, a, line, off, None));
  }

  /** The lines are read as their first token and then the rest. */
  ghost predicate ReadsFirst(step: Stepper, extent: seq<string> -> nat, holds: (Token, seq<string>) -> bool,
                             ls: seq<string>, line: nat, off: nat)
  {
    var n := extent(ls);
    && 0 < n <= |ls|
    && Apart(step, ls[..n], ls[n..], line, off)
    && exists t :: ScanAll(step, ls[..n], line, off) == [t] && holds(t, ls[..n])
  }

  lemma {:induction false} StepReads(ls: seq<string>, line: nat, off: nat)
    requires ls != []
    ensures ReadsFirst(Step, Extent, IsTokenOf, ls, line, off)
  {
    RestReads(ls, line, off);
    var t := FirstReads(ls, line, off);
  }

  lemma {:induction false} LinesRead(step: Stepper, extent: seq<string> -> nat, holds: (Token, seq<string>) -> bool,
                                     ls: seq<string>, line: nat, off: nat)
    requires forall ls: seq<string>, line: nat, off: nat | ls != [] :: ReadsFirst(step, extent, holds, ls, line, off)
    ensures ReadsBy(extent, holds, ScanAll(step, ls, line, off), ls)
    decreases |ls|
  {
    if ls == [] {
      assert ScanAll(step, ls, line, off) == [];
    } else {
      assert ReadsFirst(step, extent, holds, ls, line, off);
      var n := extent(ls);
      var on := off + Bytes(ls[..n]);
      LinesRead(step, extent, holds, ls[n..], line + n, on);
      assert ls[..n] + ls[n..] == ls;
      var rest := ScanAll(step, ls[n..], line + n, on);
      var t :| ScanAll(step, ls[..n], line, off) == [t] && holds(t, ls[..n]);
      ReadsCons(extent, holds, t, rest, ls);
    }
  }

  lemma {:induction false} ReadsCons(extent: seq<string> -> nat, holds: (Token, seq<string>) -> bool, t: Token,
                                     rest: seq<Token>, ls: seq<string>)
    requires 0 < extent(ls) <= |ls| && holds(t, ls[..extent(ls)]) && ReadsBy(extent, holds, rest, ls[extent(ls)..])
    ensures ReadsBy(extent, holds, [t] + rest, ls)
  {
    assert ([t] + rest)[0] == t && ([t] + rest)[1..] == rest;
  }

  /** Every input is read as its tokens: kinds, names and values are what the characters of its lines say. */
  lemma {:induction false} TokensRead(src: string, line: nat, off: nat)
    ensures AreLines(Lines(src)) && Concat(Lines(src)) == src && Reads(Tokens(src, line, off), Lines(src))
    ensures forall i :: 0 <= i < |Lines(src)| ==> IsText(Lines(src)[i], Text(Lines(src)[i]))
  {
    forall i | 0 <= i < |Lines(src)| ensures IsText(Lines(src)[i], Text(Lines(src)[i])) {
      TextIs(Lines(src)[i]);
    }
    LinesAre(src);
    forall ls: seq<string>, line: nat, off: nat | ls != []
      ensures ReadsFirst(Step, Extent, IsTokenOf, ls, line, off)
    {
      StepReads(ls, line, off);
    }
    LinesRead(Step, Extent, IsTokenOf, Lines(src), line, off);
  }
}
