/** Splitting a stream between lines (stream.go:159-164): lines tokenized apart, at their own positions, give
    the tokens of the whole. */
module Streams {
  import opened Lexer

  datatype Pos = Pos(line: nat, byte: nat)

  /** A run of lines and where in the stream it starts. */
  datatype Part = Part(text: string, at: Pos)

  /** raw is one line, not empty. */
  predicate OneLine(raw: string) { raw != [] && FirstLine(raw) == |raw| }

  /** Lines as a stream has them: only the last can be without its newline. */
  predicate Whole(ls: seq<string>) {
    ls == [] || (OneLine(ls[0]) && (|ls| > 1 ==> EndsLine(ls[0])) && Whole(ls[1..]))
  }

  lemma {:induction false} WholeAt(ls: seq<string>, i: nat)
    requires Whole(ls) && i < |ls|
    ensures OneLine(ls[i])
    decreases i
  {
    if i > 0 { WholeAt(ls[1..], i - 1); }
  }

  lemma {:induction false} WholeSlice(ls: seq<string>, i: nat, j: nat)
    requires Whole(ls) && i <= j <= |ls|
    ensures Whole(ls[i..j])
    decreases |ls|
  {
    if i < j {
      if i > 0 {
        WholeSlice(ls[1..], i - 1, j - 1);
        assert ls[1..][i - 1..j - 1] == ls[i..j];
      } else {
        WholeSlice(ls[1..], 0, j - 1);
        assert ls[0..j][0] == ls[0] && ls[0..j][1..] == ls[1..][0..j - 1];
      }
    }
  }

  lemma {:induction false} LinesWhole(src: string)
    ensures Whole(Lines(src))
    decreases |src|
  {
    if src != [] {
      var n := FirstLine(src);
      LinesWhole(src[n..]);
      LineOf(src);
      LastIsAll(src);
      assert Lines(src)[0] == src[..n] && Lines(src)[1..] == Lines(src[n..]);
    }
  }

  lemma {:induction false} LineOf(s: string)
    requires s != []
    ensures OneLine(s[..FirstLine(s)])
    decreases |s|
  {
    var n := FirstLine(s);
    if s[0] != '\n' && n > 1 {
      LineOf(s[1..]);
      assert s[1..][..n - 1] == s[..n][1..];
    }
  }

  lemma {:induction false} LastIsAll(s: string)
    ensures !EndsLine(s[..FirstLine(s)]) ==> FirstLine(s) == |s|
    decreases |s|
  {
    if s != [] && s[0] != '\n' {
      var n := FirstLine(s);
      if n > 1 { assert s[1..][..n - 1] == s[..n][1..]; }
      if s[1..] != [] { LastIsAll(s[1..]); }
    }
  }

  function At(ls: seq<string>, i: nat): Pos
    requires i <= |ls|
  {
    Pos(1 + i, Bytes(ls[..i]))
  }

  /** The lines from the i-th to before the j-th as a part. */
  function PartOf(ls: seq<string>, i: nat, j: nat): Part
    requires i <= j <= |ls|
  {
    Part(Concat(ls[i..j]), At(ls, i))
  }

  /** What f gives of each, one after another. */
  function Gather<T, R>(f: T -> seq<R>, ps: seq<T>): seq<R> {
    if ps == [] then [] else Gather(f, ps[..|ps| - 1]) + f(ps[|ps| - 1])
  }

  lemma {:induction false} GatherSnoc<T, R>(f: T -> seq<R>, ps: seq<T>, p: T)
    ensures Gather(f, ps + [p]) == Gather(f, ps) + f(p)
  {
    assert (ps + [p])[..|ps|] == ps;
  }

  lemma {:induction false} GatherNext<T, R>(f: T -> seq<R>, ps: seq<T>, i: nat)
    requires i < |ps|
    ensures Gather(f, ps[..i + 1]) == Gather(f, ps[..i]) + f(ps[i])
  {
    GatherSnoc(f, ps[..i], ps[i]);
    assert ps[..i + 1] == ps[..i] + [ps[i]];
  }

  function PartToks(p: Part): seq<Token> { Tokens(p.text, p.at.line, p.at.byte) }

  function TokensOfParts(ps: seq<Part>): seq<Token> { Gather(PartToks, ps) }

  lemma {:induction false} TokensSnoc(ps: seq<Part>, p: Part)
    ensures TokensOfParts(ps + [p]) == TokensOfParts(ps) + PartToks(p)
  {
    GatherSnoc(PartToks, ps, p);
  }

  lemma {:induction false} TokensNext(ps: seq<Part>, i: nat)
    requires i < |ps|
    ensures TokensOfParts(ps[..i + 1]) == TokensOfParts(ps[..i]) + PartToks(ps[i])
  {
    GatherNext(PartToks, ps, i);
  }

  // ---- lines and text ----

  lemma {:induction false} OneLineLines(raw: string, rest: string)
    requires OneLine(raw) && (rest == [] || EndsLine(raw))
    ensures Lines(raw + rest) == [raw] + Lines(rest)
  {
    if rest == [] {
      assert raw + rest == raw && raw[..|raw|] == raw && raw[|raw|..] == [];
    } else {
      FirstLineAppend(raw, rest);
      assert (raw + rest)[..|raw|] == raw && (raw + rest)[|raw|..] == rest;
    }
  }

  /** Joined and split again, lines are the same. */
  lemma {:induction false} ConcatLines(ls: seq<string>)
    requires Whole(ls)
    ensures Lines(Concat(ls)) == ls
    decreases |ls|
  {
    if ls != [] {
      ConcatLines(ls[1..]);
      if |ls| == 1 { assert ls[1..] == []; }
      OneLineLines(ls[0], Concat(ls[1..]));
      assert [ls[0]] + ls[1..] == ls;
    }
  }

  // ---- tokens of a stretch of lines ----

  /** The tokens of the lines from the i-th to before the j-th, at their positions in the stream. */
  function Tok(ls: seq<string>, i: nat, j: nat): seq<Token> { Stretch(Step, ls, i, j) }

  function Stretch(step: Stepper, ls: seq<string>, i: nat, j: nat): seq<Token> {
    if i <= j <= |ls| then ScanAll(step, ls[i..j], 1 + i, Bytes(ls[..i])) else []
  }

  lemma {:induction false} PartTokens(ls: seq<string>, i: nat, j: nat)
    requires Whole(ls) && i <= j <= |ls|
    ensures TokensOfParts([PartOf(ls, i, j)]) == Tok(ls, i, j)
  {
    WholeSlice(ls, i, j);
    ConcatLines(ls[i..j]);
    TokensSnoc([], PartOf(ls, i, j));
    assert [] + [PartOf(ls, i, j)] == [PartOf(ls, i, j)];
    NoTokens(Tok(ls, i, j));
  }

  lemma {:induction false} NoTokens(ts: seq<Token>)
    ensures [] + ts == ts
  {
  }

  lemma {:induction false} BytesAppend(a: seq<string>, b: seq<string>)
    ensures Bytes(a + b) == Bytes(a) + Bytes(b)
    decreases |a|
  {
    if a == [] {
      assert a + b == b;
    } else {
      BytesAppend(a[1..], b);
      assert (a + b)[1..] == a[1..] + b;
    }
  }

  lemma {:induction false} SliceBytes(ls: seq<string>, i: nat, m: nat)
    requires i <= m <= |ls|
    ensures Bytes(ls[..m]) == Bytes(ls[..i]) + Bytes(ls[i..m])
  {
    BytesAppend(ls[..i], ls[i..m]);
    assert ls[..m] == ls[..i] + ls[i..m];
  }

  lemma {:induction false} ThreeSlices<T>(s: seq<T>, i: nat, m: nat, j: nat)
    requires i < m < j <= |s|
    ensures s[i..j] == s[i..m] + s[m..j] && |s[i..m]| == m - i && s[m..j][0] == s[m]
  {
  }

  lemma {:induction false} StretchJoin(step: Stepper, ls: seq<string>, i: nat, m: nat, j: nat)
    requires i < m < j <= |ls| && Fresh(step, ls[m])
    ensures Stretch(step, ls, i, j) == Stretch(step, ls, i, m) + Stretch(step, ls, m, j)
  {
    SliceBytes(ls, i, m);
    ThreeSlices(ls, i, m, j);
    ScanJoinAt(step, ls[i..j], ls[i..m], ls[m..j], 1 + i, Bytes(ls[..i]), 1 + m, Bytes(ls[..m]));
  }

  lemma {:induction false} ScanJoinAt(step: Stepper, all: seq<string>, a: seq<string>, b: seq<string>, line: nat,
                                      off: nat, next: nat, nextOff: nat)
    requires all == a + b && a != [] && b != [] && Fresh(step, b[0]) && next == line + |a| && nextOff == off + Bytes(a)
    ensures ScanAll(step, all, line, off) == ScanAll(step, a, line, off) + ScanAll(step, b, next, nextOff)
  {
    ScanJoin(step, a, b, line, off);
  }

  /** Lines cut before one that cannot continue an attribute. */
  lemma {:induction false} TokJoin(ls: seq<string>, i: nat, m: nat, j: nat)
    requires i < m < j <= |ls| && !Marked(Text(ls[m]))
    ensures Tok(ls, i, j) == Tok(ls, i, m) + Tok(ls, m, j)
  {
    StepFresh(ls[m]);
    StretchJoin(Step, ls, i, m, j);
  }

  /** The source of a stretch of lines is in its tokens. */
  lemma {:induction false} TokRaw(ls: seq<string>, i: nat, j: nat)
    requires Whole(ls) && i <= j <= |ls|
    ensures RawOf(Tok(ls, i, j)) == Concat(ls[i..j])
  {
    WholeSlice(ls, i, j);
    ConcatLines(ls[i..j]);
    Lossless(Concat(ls[i..j]), 1 + i, Bytes(ls[..i]));
  }
}
