/** Where tokens and their values are in the source (lexer/lexer.go:32-90): tokens tile the input, and each
    byte of an attribute's value is a byte of the source. */
module LexerPositions {
  import opened Prefixes
  import opened Lexer
  import opened Streams

  // ---- a joined value and its pieces ----

  /** Where the piece after segs would start in their joined value. */
  function Offset(segs: seq<string>): nat {
    if segs == [] then 0 else Offset(segs[..|segs| - 1]) + |segs[|segs| - 1]| + 1
  }

  /** A line of raw starts at p. */
  predicate LineStart(raw: string, p: int) { p == 0 || (0 < p <= |raw| && raw[p - 1] == '\n') }

  /** The n-th segment s stands for the piece text, which starts at valStart in the value and is in raw where s
      says, raw starting at a line and a byte of the stream. */
  predicate Piece(s: Segment, n: nat, text: string, valStart: nat, raw: string, line: nat, start: nat) {
    && s.valStart == valStart && s.valEnd == valStart + |text|
    && start <= s.srcByte && s.srcByte - start + |text| <= |raw|
    && raw[s.srcByte - start..s.srcByte - start + |text|] == text
    && s.srcLine == line + n && 1 <= s.srcCol && LineStart(raw, s.srcByte - start - (s.srcCol - 1))
  }

  predicate Pieces(segs: seq<string>, ss: seq<Segment>, raw: string, line: nat, start: nat)
    decreases |segs|
  {
    && |segs| == |ss|
    && (segs == [] ||
        var n := |segs| - 1;
        Pieces(segs[..n], ss[..n], raw, line, start) && Piece(ss[n], n, segs[n], Offset(segs[..n]), raw, line, start))
  }

  lemma {:induction false} PieceGrows(s: Segment, n: nat, text: string, valStart: nat, raw: string, more: string,
                                      line: nat, start: nat)
    requires Piece(s, n, text, valStart, raw, line, start)
    ensures Piece(s, n, text, valStart, raw + more, line, start)
  {
    var i := s.srcByte - start;
    assert (raw + more)[i..i + |text|] == raw[i..i + |text|];
  }

  lemma {:induction false} PiecesGrow(segs: seq<string>, ss: seq<Segment>, raw: string, more: string, line: nat,
                                      start: nat)
    requires Pieces(segs, ss, raw, line, start)
    ensures Pieces(segs, ss, raw + more, line, start)
    decreases |segs|
  {
    if segs != [] {
      var n := |segs| - 1;
      PiecesGrow(segs[..n], ss[..n], raw, more, line, start);
      PieceGrows(ss[n], n, segs[n], Offset(segs[..n]), raw, more, line, start);
    }
  }

  lemma {:induction false} PiecesSnoc(segs: seq<string>, ss: seq<Segment>, text: string, s: Segment, raw: string,
                                      line: nat, start: nat)
    requires Pieces(segs, ss, raw, line, start) && Piece(s, |segs|, text, Offset(segs), raw, line, start)
    ensures Pieces(segs + [text], ss + [s], raw, line, start) && Offset(segs + [text]) == Offset(segs) + |text| + 1
  {
    assert (segs + [text])[..|segs|] == segs && (ss + [s])[..|ss|] == ss;
  }

  lemma {:induction false} PieceOf(segs: seq<string>, ss: seq<Segment>, raw: string, line: nat, start: nat, i: nat)
    requires Pieces(segs, ss, raw, line, start) && i < |segs|
    ensures |ss| == |segs| && Piece(ss[i], i, segs[i], Offset(segs[..i]), raw, line, start)
    decreases |segs|
  {
    var n := |segs| - 1;
    if i < n {
      PieceOf(segs[..n], ss[..n], raw, line, start, i);
      assert segs[..n][..i] == segs[..i];
    }
  }

  lemma {:induction false} JoinLength(segs: seq<string>)
    requires segs != []
    ensures |Join(segs)| + 1 == Offset(segs)
    decreases |segs|
  {
    if |segs| > 1 { JoinLength(segs[..|segs| - 1]); } else { assert segs[..0] == []; }
  }

  /** The i-th piece is in the joined value where the pieces before it end, and a newline follows it unless it
      is the last. */
  lemma {:induction false} JoinAt(segs: seq<string>, i: nat)
    requires i < |segs|
    ensures var p := Offset(segs[..i]); var v := Join(segs);
            p + |segs[i]| <= |v| && v[p..p + |segs[i]|] == segs[i] &&
            if i + 1 < |segs| then p + |segs[i]| < |v| && v[p + |segs[i]|] == '\n' else p + |segs[i]| == |v|
    decreases |segs|
  {
    var n := |segs| - 1;
    if i < n {
      JoinAt(segs[..n], i);
      JoinLength(segs[..n]);
      assert segs[..n][..i] == segs[..i];
    } else {
      JoinLast(segs);
    }
  }

  lemma {:induction false} JoinLast(segs: seq<string>)
    requires segs != []
    ensures var n := |segs| - 1; var p := Offset(segs[..n]); var v := Join(segs);
            p + |segs[n]| == |v| && v[p..p + |segs[n]|] == segs[n]
  {
    if |segs| > 1 { JoinLength(segs[..|segs| - 1]); } else { assert segs[..0] == []; }
  }

  // ---- tokens ----

  /** A token that starts at the beginning of a line and has as many bytes as its span. */
  predicate Placed(t: Token) {
    t.span.startCol == 1 && t.span.endByte == t.span.startByte + |t.raw|
  }

  /** An attribute's value is its pieces joined, each where its segment says; other tokens have none. */
  ghost predicate Mapped(t: Token) {
    t.segments == [] || exists segs ::
      segs != [] && t.value == Join(segs) && Pieces(segs, t.segments, t.raw, t.span.startLine, t.span.startByte)
  }

  /** A line and a byte of the stream. */
  datatype Mark = Mark(line: nat, byte: nat)

  /** The tokens follow one another without gap from a mark to another. */
  ghost predicate Tiled(ts: seq<Token>, from: Mark, to: Mark)
    decreases |ts|
  {
    if ts == [] then from == to
    else
      && Mark(ts[0].span.startLine, ts[0].span.startByte) == from && Placed(ts[0]) && Mapped(ts[0])
      && Tiled(ts[1..], After(ts[0]), to)
  }

  function After(t: Token): Mark { Mark(t.span.endLine + 1, t.span.endByte) }

  lemma {:induction false} TiledAppend(a: seq<Token>, b: seq<Token>, from: Mark, mid: Mark, to: Mark)
    requires Tiled(a, from, mid) && Tiled(b, mid, to)
    ensures Tiled(a + b, from, to)
    decreases |a|
  {
    if a == [] {
      assert a + b == b;
    } else {
      TiledAppend(a[1..], b, After(a[0]), mid, to);
      assert (a + b)[1..] == a[1..] + b;
    }
  }

  lemma {:induction false} TiledOne(t: Token)
    requires Placed(t) && Mapped(t)
    ensures Tiled([t], Mark(t.span.startLine, t.span.startByte), After(t))
  {
    assert [t][1..] == [];
  }

  // ---- scanning ----

  /** An attribute in progress, with the lines before the one at a line and a byte. */
  predicate FoldOk(f: Folding, line: nat, off: nat) {
    var t := f.token;
    && f.segs != [] && f.valOff == Offset(f.segs)
    && Pieces(f.segs, t.segments, t.raw, t.span.startLine, t.span.startByte)
    && t.span.startCol == 1 && t.span.endByte == t.span.startByte + |t.raw| == off
    && t.span.endLine + 1 == line == t.span.startLine + |f.segs|
  }

  predicate CurOk(cur: Option<Folding>, at: Mark) { cur.Some? ==> FoldOk(cur.value, at.line, at.byte) }

  /** What is in progress has whole lines only. */
  predicate CurWhole(cur: Option<Folding>) { cur.Some? ==> EndsLine(cur.value.token.raw) }

  /** Where what is in progress started, at the mark when nothing is. */
  function StartOf(cur: Option<Folding>, at: Mark): Mark {
    if cur.Some? then Mark(cur.value.token.span.startLine, cur.value.token.span.startByte) else at
  }

  lemma {:induction false} TextStarts(raw: string)
    ensures Text(raw) <= raw
  {
  }

  lemma {:induction false} TextPiece(raw: string, i: nat, j: nat)
    requires i <= j <= |Text(raw)|
    ensures j <= |raw| && raw[i..j] == Text(raw)[i..j]
  {
    TextStarts(raw);
  }

  lemma {:induction false} BegunOk(name: string, raw: string, text: string, i: nat, piece: string, line: nat, off: nat)
    requires i + |piece| <= |raw| && raw[i..i + |piece|] == piece
    ensures FoldOk(Begun(name, raw, text, i, piece, line, off), line + 1, off + |raw|)
  {
    var s := Segment(0, |piece|, line, i + 1, off + i);
    assert Piece(s, 0, piece, 0, raw, line, off);
    PiecesSnoc([], [], piece, s, raw, line, off);
    assert [] + [piece] == [piece] && [] + [s] == [s];
  }

  lemma {:induction false} ExtendedOk(f: Folding, raw: string, text: string, i: nat, piece: string, line: nat, off: nat)
    requires FoldOk(f, line, off) && EndsLine(f.token.raw) && i + |piece| <= |raw| && raw[i..i + |piece|] == piece
    ensures FoldOk(Extended(f, raw, text, i, piece, line, off), line + 1, off + |raw|)
  {
    PiecesLine(f.segs, f.token.segments, f.token.raw, raw, i, piece, f.token.span.startLine, f.token.span.startByte);
  }

  lemma {:induction false} PiecesLine(segs: seq<string>, ss: seq<Segment>, before: string, raw: string, i: nat,
                                      piece: string, line: nat, start: nat)
    requires Pieces(segs, ss, before, line, start) && EndsLine(before) && i + |piece| <= |raw|
    requires raw[i..i + |piece|] == piece
    ensures Offset(segs + [piece]) == Offset(segs) + |piece| + 1
    ensures Pieces(segs + [piece],
            ss + [Segment(Offset(segs), Offset(segs) + |piece|, line + |segs|, i + 1, start + |before| + i)],
                   before + raw, line, start)
  {
    var s := Segment(Offset(segs), Offset(segs) + |piece|, line + |segs|, i + 1, start + |before| + i);
    PiecesGrow(segs, ss, before, raw, line, start);
    NextPiece(before, raw, i, piece, |segs|, Offset(segs), line, start);
    PiecesSnoc(segs, ss, piece, s, before + raw, line, start);
  }

  /** The piece at i of a line that follows before. */
  lemma {:induction false} NextPiece(before: string, raw: string, i: nat, piece: string, n: nat, valStart: nat,
                                     line: nat, start: nat)
    requires EndsLine(before) && i + |piece| <= |raw| && raw[i..i + |piece|] == piece
    ensures Piece(Segment(valStart, valStart + |piece|, line + n, i + 1, start + |before| + i), n, piece, valStart,
            before + raw, line, start)
  {
    Shifted(before, raw, i, i + |piece|);
    assert (before + raw)[|before| - 1] == before[|before| - 1];
  }

  lemma {:induction false} Shifted(a: string, b: string, i: nat, j: nat)
    requires i <= j <= |b|
    ensures (a + b)[|a| + i..|a| + j] == b[i..j]
  {
  }

  lemma {:induction false} BeginOk(raw: string, line: nat, off: nat)
    ensures FoldOk(Begin(raw, line, off), line + 1, off + |raw|)
  {
    var text, r := Text(raw), AttrValue(Text(raw));
    TextPiece(raw, r.0, r.1);
    BegunOk(AttrName(text), raw, text, r.0, text[r.0..r.1], line, off);
  }

  lemma {:induction false} ExtendOk(f: Folding, raw: string, line: nat, off: nat)
    requires FoldOk(f, line, off) && EndsLine(f.token.raw)
    ensures FoldOk(Extend(f, raw, line, off), line + 1, off + |raw|)
  {
    var text, r := Text(raw), ContValue(Text(raw));
    TextPiece(raw, r.0, r.1);
    ExtendedOk(f, raw, text, r.0, text[r.0..r.1], line, off);
  }

  lemma {:induction false} FlushTiled(cur: Option<Folding>, at: Mark)
    requires CurOk(cur, at)
    ensures Tiled(Flush(cur), StartOf(cur, at), at)
  {
    if cur.Some? {
      var t := cur.value.token.(value := Join(cur.value.segs));
      assert Mapped(t);
      TiledOne(t);
    }
  }

  function Past(at: Mark, raw: string): Mark { Mark(at.line + 1, at.byte + |raw|) }

  /** What a line does keeps tokens tiled and what is in progress as ok says. */
  ghost predicate KeepsTiled(step: Stepper, ok: Progress) {
    forall cur: Option<Folding>, raw: string, at: Mark :: ok(cur, at) && CurWhole(cur) && raw != [] ==>
      TilesOn(step, ok, cur, raw, at)
  }

  type Progress = (Option<Folding>, Mark) -> bool

  ghost predicate TilesOn(step: Stepper, ok: Progress, cur: Option<Folding>, raw: string, at: Mark) {
    var r := step(cur, raw, at.line, at.byte);
    ok(r.cur, Past(at, raw)) && (EndsLine(raw) ==> CurWhole(r.cur)) &&
      Tiled(r.toks, StartOf(cur, at), StartOf(r.cur, Past(at, raw)))
  }

  lemma {:induction false} StepContinues(cur: Option<Folding>, raw: string, line: nat, off: nat)
    requires Classify(Text(raw), cur.Some?).1
    ensures cur.Some? && Step(cur, raw, line, off) == Scanned([], Some(Extend(cur.value, raw, line, off)))
    ensures Extend(cur.value, raw, line, off).token.raw == cur.value.token.raw + raw
    ensures StartOf(Some(Extend(cur.value, raw, line, off)), Mark(line, off)) == StartOf(cur, Mark(line, off))
  {
  }

  lemma {:induction false} ContinueTiles(cur: Option<Folding>, raw: string, at: Mark)
    requires CurOk(cur, at) && CurWhole(cur) && raw != [] && Classify(Text(raw), cur.Some?).1
    ensures TilesOn(Step, CurOk, cur, raw, at)
  {
    StepContinues(cur, raw, at.line, at.byte);
    ExtendOk(cur.value, raw, at.line, at.byte);
    var all := cur.value.token.raw + raw;
    assert all[|all| - 1] == raw[|raw| - 1];
  }

  lemma {:induction false} BeginTiles(cur: Option<Folding>, raw: string, at: Mark)
    requires CurOk(cur, at) && Classify(Text(raw), cur.Some?) == (Attribute, false)
    ensures TilesOn(Step, CurOk, cur, raw, at)
  {
    FlushTiled(cur, at);
    BeginOk(raw, at.line, at.byte);
  }

  lemma {:induction false} TriviaTiles(cur: Option<Folding>, raw: string, at: Mark)
    requires CurOk(cur, at) && !Classify(Text(raw), cur.Some?).1 && !Classify(Text(raw), cur.Some?).0.Attribute?
    ensures TilesOn(Step, CurOk, cur, raw, at)
  {
    var t := Trivia(Classify(Text(raw), cur.Some?).0, raw, at.line, at.byte);
    FlushTiled(cur, at);
    TiledOne(t);
    TiledAppend(Flush(cur), [t], StartOf(cur, at), at, Past(at, raw));
  }

  lemma {:induction false} StepKeepsTiled()
    ensures KeepsTiled(Step, CurOk)
  {
    forall cur: Option<Folding>, raw: string, at: Mark | CurOk(cur, at) && CurWhole(cur) && raw != []
      ensures TilesOn(Step, CurOk, cur, raw, at)
    {
      var (kind, isCont) := Classify(Text(raw), cur.Some?);
      if isCont {
        ContinueTiles(cur, raw, at);
      } else if kind.Attribute? {
        BeginTiles(cur, raw, at);
      } else {
        TriviaTiles(cur, raw, at);
      }
    }
  }

  /** Only the last line can be without its newline. */
  predicate Ended(ls: seq<string>) { ls == [] || (ls[0] != [] && (|ls| > 1 ==> EndsLine(ls[0])) && Ended(ls[1..])) }

  lemma {:induction false} WholeEnded(ls: seq<string>)
    requires Whole(ls)
    ensures Ended(ls)
    decreases |ls|
  {
    if ls != [] { WholeEnded(ls[1..]); }
  }

  lemma {:induction false} ScanTiled(step: Stepper, ok: Progress, ls: seq<string>, at: Mark, cur: Option<Folding>)
    requires KeepsTiled(step, ok) && Ended(ls) && ok(cur, at) && (ls != [] ==> CurWhole(cur))
    ensures var r, to := Scan(step, ls, at.line, at.byte, cur), Mark(at.line + |ls|, at.byte + Bytes(ls));
            ok(r.cur, to) && Tiled(r.toks, StartOf(cur, at), StartOf(r.cur, to))
    decreases |ls|
  {
    if ls != [] {
      var next, to := Past(at, ls[0]), Mark(at.line + |ls|, at.byte + Bytes(ls));
      var first := step(cur, ls[0], at.line, at.byte);
      var rest := Scan(step, ls[1..], next.line, next.byte, first.cur);
      assert TilesOn(step, ok, cur, ls[0], at);
      assert to == Mark(next.line + |ls[1..]|, next.byte + Bytes(ls[1..]));
      ScanTiled(step, ok, ls[1..], next, first.cur);
      TiledAppend(first.toks, rest.toks, StartOf(cur, at), StartOf(first.cur, next), StartOf(rest.cur, to));
      assert Scan(step, ls, at.line, at.byte, cur) == Scanned(first.toks + rest.toks, rest.cur);
    }
  }

  lemma {:induction false} ScanAllTiled(step: Stepper, ls: seq<string>, at: Mark)
    requires KeepsTiled(step, CurOk) && Ended(ls)
    ensures Tiled(ScanAll(step, ls, at.line, at.byte), at, Mark(at.line + |ls|, at.byte + Bytes(ls)))
  {
    var r, to := Scan(step, ls, at.line, at.byte, None), Mark(at.line + |ls|, at.byte + Bytes(ls));
    ScanTiled(step, CurOk, ls, at, None);
    FlushTiled(r.cur, to);
    TiledAppend(r.toks, Flush(r.cur), at, StartOf(r.cur, to), to);
  }

  /** The tokens of an input tile it: the spans follow one another without gap, in lines and in bytes. */
  lemma {:induction false} TokensTile(src: string, line: nat, off: nat)
    ensures Tiled(Tokens(src, line, off), Mark(line, off), Mark(line + |Lines(src)|, off + |src|))
  {
    LinesWhole(src);
    WholeEnded(Lines(src));
    LinesBytes(src);
    StepKeepsTiled();
    ScanAllTiled(Step, Lines(src), Mark(line, off));
  }

  // ---- the bytes of a token ----

  lemma {:induction false} RawCons(ts: seq<Token>)
    requires ts != []
    ensures RawOf(ts) == ts[0].raw + RawOf(ts[1..])
  {
  }

  lemma {:induction false} TiledEach(ts: seq<Token>, from: Mark, to: Mark, i: nat)
    requires Tiled(ts, from, to) && i < |ts|
    ensures Placed(ts[i]) && Mapped(ts[i]) && from.byte <= ts[i].span.startByte
    ensures i > 0 ==> ts[0].span.endByte <= ts[i].span.startByte
    decreases |ts|
  {
    if i > 0 { TiledEach(ts[1..], After(ts[0]), to, i - 1); }
  }

  /** t's raw text is src's at t's span, src starting at a byte of the stream. */
  predicate AtSpan(t: Token, src: string, off: nat) {
    && off <= t.span.startByte <= t.span.endByte <= off + |src|
    && src[t.span.startByte - off..t.span.endByte - off] == t.raw
  }

  lemma {:induction false} TiledRaw(ts: seq<Token>, from: Mark, to: Mark, i: nat)
    requires Tiled(ts, from, to) && i < |ts|
    ensures AtSpan(ts[i], RawOf(ts), from.byte)
    decreases |ts|
  {
    RawCons(ts);
    TiledEach(ts, from, to, i);
    var a, b, span := ts[0].raw, RawOf(ts[1..]), ts[i].span;
    if i == 0 {
      assert (a + b)[0..|a|] == a;
    } else {
      TiledRaw(ts[1..], After(ts[0]), to, i - 1);
      Shifted(a, b, span.startByte - from.byte - |a|, span.endByte - from.byte - |a|);
    }
  }

  lemma {:induction false} TileAt(ts: seq<Token>, src: string, from: Mark, to: Mark, i: nat)
    requires Tiled(ts, from, to) && RawOf(ts) == src && i < |ts|
    ensures AtSpan(ts[i], src, from.byte) && Mapped(ts[i])
  {
    TiledRaw(ts, from, to, i);
    TiledEach(ts, from, to, i);
  }

  /** Every token's raw text is the source at its span. */
  lemma {:induction false} TokenAt(src: string, line: nat, off: nat, i: nat)
    requires i < |Tokens(src, line, off)|
    ensures AtSpan(Tokens(src, line, off)[i], src, off) && Mapped(Tokens(src, line, off)[i])
  {
    TokensTile(src, line, off);
    Lossless(src, line, off);
    TileAt(Tokens(src, line, off), src, Mark(line, off), Mark(line + |Lines(src)|, off + |src|), i);
  }

  // ---- from a value back to its source ----

  /** The k-th segment: a stretch of the value that is the stretch of raw it names, on the k-th line; the next
      one follows after a newline, the last one ends the value. */
  predicate Maps(t: Token, k: nat)
    requires k < |t.segments|
  {
    var s, at := t.segments[k], t.segments[k].srcByte - t.span.startByte;
    && s.valStart <= s.valEnd <= |t.value| && 0 <= at && at + (s.valEnd - s.valStart) <= |t.raw|
    && t.value[s.valStart..s.valEnd] == t.raw[at..at + (s.valEnd - s.valStart)]
    && s.srcLine == t.span.startLine + k && 1 <= s.srcCol && LineStart(t.raw, at - (s.srcCol - 1))
    && (k == 0 ==> s.valStart == 0)
    && if k + 1 < |t.segments| then s.valEnd < |t.value| && t.value[s.valEnd] == '\n' &&
      t.segments[k + 1].valStart == s.valEnd + 1
       else s.valEnd == |t.value|
  }

  lemma {:induction false} PieceMaps(t: Token, segs: seq<string>, k: nat)
    requires t.value == Join(segs) && Pieces(segs, t.segments, t.raw, t.span.startLine, t.span.startByte) && k < |segs|
    ensures k < |t.segments| && Maps(t, k)
  {
    PieceOf(segs, t.segments, t.raw, t.span.startLine, t.span.startByte, k);
    JoinAt(segs, k);
    assert segs[..0] == [];
    if k + 1 < |segs| {
      PieceOf(segs, t.segments, t.raw, t.span.startLine, t.span.startByte, k + 1);
      OffsetNext(segs, k);
    }
  }

  lemma {:induction false} OffsetNext(segs: seq<string>, k: nat)
    requires k < |segs|
    ensures Offset(segs[..k + 1]) == Offset(segs[..k]) + |segs[k]| + 1
  {
    assert segs[..k + 1][..k] == segs[..k];
  }

  /** Every segment of every token of an input maps a stretch of its value to the same bytes of the source. */
  lemma {:induction false} SegmentsMap(src: string, line: nat, off: nat, i: nat)
    requires i < |Tokens(src, line, off)|
    ensures AllMap(Tokens(src, line, off)[i])
  {
    TokenAt(src, line, off, i);
    MappedMaps(Tokens(src, line, off)[i]);
  }

  lemma {:induction false} MappedMaps(t: Token)
    requires Mapped(t)
    ensures AllMap(t)
  {
    if t.segments != [] {
      var segs :| segs != [] && t.value == Join(segs) &&
        Pieces(segs, t.segments, t.raw, t.span.startLine, t.span.startByte);
      forall k | 0 <= k < |t.segments| ensures Maps(t, k) { PieceMaps(t, segs, k); }
    }
  }

  predicate AllMap(t: Token) { forall k :: 0 <= k < |t.segments| ==> Maps(t, k) }

  /** Whether v is where a segment of the value ends, on the newline that joins it to the next or at the end. */
  predicate Joint(t: Token, v: int) { exists k :: 0 <= k < |t.segments| && t.segments[k].valEnd == v }

  predicate AtEnd(s: Segment, line: int, col: int, byteOff: int) {
    line == s.srcLine && col == s.srcCol + (s.valEnd - s.valStart) && byteOff == s.srcByte + (s.valEnd - s.valStart)
  }

  /** A position that holds, in the token's raw text, the byte of its value at v. */
  predicate Finds(t: Token, v: nat, line: int, col: int, byteOff: int)
    requires v < |t.value|
  {
    var at := byteOff - t.span.startByte;
    && 0 <= at < |t.raw| && t.raw[at] == t.value[v]
    && t.span.startLine <= line < t.span.startLine + |t.segments| && 1 <= col && LineStart(t.raw, at - (col - 1))
  }

  /** The first segment that does not end before v holds v, or ends at it. */
  lemma {:induction false} Inside(t: Token, k: nat, v: nat)
    requires AllMap(t) && k < |t.segments| && v <= t.segments[k].valEnd && forall j :: 0 <= j < k ==>
             t.segments[j].valEnd < v
    ensures t.segments[k].valStart <= v
    ensures var s, d := t.segments[k], v - t.segments[k].valStart;
            v < s.valEnd ==> v < |t.value| && Finds(t, v, s.srcLine, s.srcCol + d, s.srcByte + d)
  {
    var s := t.segments[k];
    assert Maps(t, k);
    if k > 0 { assert Maps(t, k - 1); }
    if v < s.valEnd {
      var at, d := s.srcByte - t.span.startByte, v - s.valStart;
      assert t.value[s.valStart..s.valEnd][d] == t.raw[at..at + (s.valEnd - s.valStart)][d];
    }
  }

  lemma {:induction false} Ends(t: Token)
    requires AllMap(t) && t.segments != []
    ensures t.segments[|t.segments| - 1].valEnd == |t.value| && t.segments[0].valStart == 0
  {
    assert Maps(t, |t.segments| - 1) && Maps(t, 0);
  }

  /** What SourceAt promises of a token whose segments map its value. */
  ghost predicate Located(t: Token, v: int, line: int, col: int, byteOff: int)
    requires t.segments != []
  {
    var n := |t.segments| - 1;
    if v < 0 then line == t.segments[0].srcLine && col == t.segments[0].srcCol && byteOff == t.segments[0].srcByte
    else if v > |t.value| then AtEnd(t.segments[n], line, col, byteOff)
    else if Joint(t, v) then exists k ::
      0 <= k <= n && t.segments[k].valEnd == v && AtEnd(t.segments[k], line, col, byteOff)
    else v < |t.value| && Finds(t, v, line, col, byteOff)
  }

  lemma {:induction false} LocatedIn(t: Token, k: nat, v: int)
    requires AllMap(t) && k < |t.segments| && Max(0, v) <= t.segments[k].valEnd
    requires forall j :: 0 <= j < k ==> t.segments[j].valEnd < Max(0, v)
    ensures var s, d := t.segments[k], Max(0, v) - t.segments[k].valStart;
            d >= 0 && Located(t, v, s.srcLine, s.srcCol + d, s.srcByte + d)
  {
    Inside(t, k, Max(0, v));
    Ends(t);
    assert Maps(t, k);
    if v >= 0 && Joint(t, v) { JointHere(t, k, v); }
  }

  /** A joint is where the first segment that does not end before it ends. */
  lemma {:induction false} JointHere(t: Token, k: nat, v: nat)
    requires AllMap(t) && k < |t.segments| && v <= t.segments[k].valEnd && Joint(t, v) && forall j :: 0 <= j < k ==>
             t.segments[j].valEnd < v
    ensures t.segments[k].valEnd == v
  {
    var i :| 0 <= i < |t.segments| && t.segments[i].valEnd == v;
    EndsRise(t, k, i);
  }

  lemma {:induction false} EndsRise(t: Token, k: nat, i: nat)
    requires AllMap(t) && k <= i < |t.segments|
    ensures t.segments[k].valEnd <= t.segments[i].valEnd && (k < i ==> t.segments[k].valEnd < t.segments[i].valEnd)
    decreases i
  {
    if k < i {
      EndsRise(t, k, i - 1);
      assert Maps(t, i - 1) && Maps(t, i);
    }
  }

  /** SourceAt: a byte of the value is found in the source, on the line of its segment and at its column; what
      joins two segments is found at the end of the first, what is past the value at the end of the last. */
  method SourceAt(t: Token, valOffset: int) returns (line: int, col: int, byteOff: int)
    ensures t.segments == [] ==> line == t.span.startLine && col == t.span.startCol && byteOff == t.span.startByte
    ensures t.segments != [] && AllMap(t) ==> Located(t, valOffset, line, col, byteOff)
  {
    if t.segments == [] { return t.span.startLine, t.span.startCol, t.span.startByte; }
    var v := Max(0, valOffset);
    for k := 0 to |t.segments|
      invariant forall j :: 0 <= j < k ==> t.segments[j].valEnd < v
    {
      var s := t.segments[k];
      if v <= s.valEnd {
        if AllMap(t) { LocatedIn(t, k, valOffset); }
        var d := Max(0, v - s.valStart);
        return s.srcLine, s.srcCol + d, s.srcByte + d;
      }
    }
    if AllMap(t) { Ends(t); }
    var last := t.segments[|t.segments| - 1];
    var d := last.valEnd - last.valStart;
    return last.srcLine, last.srcCol + d, last.srcByte + d;
  }
}
