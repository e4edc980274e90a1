/** The text a filter is keyed by (resolve/filtermemo.go:239-441): one from which the whole filter can be
    read back. A prefix range, a set name and a template are known by their own texts. */
module MemoTexts {
  import opened Prefixes

  // ---- the trees, with every node the rendering does not know as one ----

  /** An operator as its fields are stored: any code, any numbers. */
  datatype OpFields = OpFields(code: nat, n: nat, m: nat)

  datatype AsExpr = AsNum(asn: nat) | AsSetRef(name: string) | AsTemplate(text: string)
    | AsBinary(op: nat, l: AsExpr, r: AsExpr) | AsUnknown

  datatype PathExpr =
    | AltNil | Alt(es: seq<PathExpr>)
    | SeqNil | Seq(es: seq<PathExpr>)
    | Repeat(inner: PathExpr, op: nat, min: int, max: int, same: bool)
    | PathAny | PathAsn(asn: nat) | PathSet(name: string) | PathTemplate(text: string) | PathPeer | PathStart | PathEnd
    | ClassNil(negated: bool) | Class(negated: bool, es: seq<PathExpr>)
    | AsnRange(lo: nat, hi: nat) | PathUnknown

  /** A nil list is not an empty one. */
  datatype Filter =
    | FAny
    | FPeerAs(op: OpFields)
    | FListNil | FList(ranges: seq<string>)
    | FAs(expr: AsExpr, op: OpFields)
    | FSet(name: string, op: OpFields)
    | FTemplate(text: string, op: OpFields)
    | FPathNil(raw: string) | FPath(raw: string, body: PathExpr)
    | FCommunityNil(code: nat, raw: string) | FCommunity(code: nat, raw: string, values: seq<string>)
    | FAndNil | FAnd(terms: seq<Filter>)
    | FOrNil | FOr(terms: seq<Filter>)
    | FNot(inner: Filter)
    | FUnknown

  // ---- which trees it accepts ----

  predicate IsDigit(c: char) { '0' <= c <= '9' }

  predicate IsNameChar(c: char) {
    'a' <= c <= 'z' || 'A' <= c <= 'Z' || IsDigit(c) || c == '-' || c == '_' || c == ':' || c == '.'
  }

  /** A set name or a template holds letters, digits, '-', '_', ':' and '.' only. */
  predicate IsName(s: string) { forall i :: 0 <= i < |s| ==> IsNameChar(s[i]) }

  predicate IsRangeChar(c: char) { c != ';' && c != '}' }

  predicate IsRange(s: string) { forall i :: 0 <= i < |s| ==> IsRangeChar(s[i]) }

  predicate KnownAs(e: AsExpr) {
    match e
    case AsNum(_) => true
    case AsSetRef(n) => IsName(n)
    case AsTemplate(t) => IsName(t)
    case AsBinary(_, l, r) => KnownAs(l) && KnownAs(r)
    case AsUnknown => false
  }

  predicate KnownPath(e: PathExpr) {
    match e
    case Alt(es) => forall i :: 0 <= i < |es| ==> KnownPath(es[i])
    case Seq(es) => forall i :: 0 <= i < |es| ==> KnownPath(es[i])
    case Class(_, es) => forall i :: 0 <= i < |es| ==> KnownPath(es[i])
    case Repeat(x, _, _, _, _) => KnownPath(x)
    case PathSet(n) => IsName(n)
    case PathTemplate(t) => IsName(t)
    case PathUnknown => false
    case _ => true
  }

  predicate Known(f: Filter) {
    match f
    case FList(rs) => forall i :: 0 <= i < |rs| ==> IsRange(rs[i])
    case FAs(e, _) => KnownAs(e)
    case FSet(n, _) => IsName(n)
    case FTemplate(t, _) => IsName(t)
    case FPath(_, e) => KnownPath(e)
    case FAnd(fs) => forall i :: 0 <= i < |fs| ==> Known(fs[i])
    case FOr(fs) => forall i :: 0 <= i < |fs| ==> Known(fs[i])
    case FNot(g) => Known(g)
    case FUnknown => false
    case _ => true
  }

  // ---- the rendering: each writer gives its node's text, then rest ----

  function Digits(n: nat): (s: string)
    ensures |s| > 0 && forall i :: 0 <= i < |s| ==> IsDigit(s[i])
  {
    if n < 10 then [DigitOf(n)] else Digits(n / 10) + [DigitOf(n % 10)]
  }

  function DigitOf(n: nat): (c: char)
    requires n < 10
    ensures IsDigit(c)
  {
    '0' + n as char
  }

  function Itoa(n: int): string { if n < 0 then "-" + Digits(-n) else Digits(n) }

  function Bool(b: bool): string { if b then "true" else "false" }

  /** The texts a character is quoted as (strconv.Quote). */
  type Escapes = char -> string

  function Escaped(esc: Escapes, s: string): string { if s == [] then [] else esc(s[0]) + Escaped(esc, s[1..]) }

  function Quote(esc: Escapes, s: string): string { "\"" + Escaped(esc, s) + "\"" }

  const EXACT := 0
  const MINUS := 1
  const PLUS := 2
  const LENGTH := 3
  const RANGE := 4

  /** writeRangeOp: as String does where no other operator has that String, by its fields otherwise. */
  function OpText(o: OpFields): string {
    if (o.code == EXACT || o.code == PLUS || o.code == MINUS) && o.n == 0 && o.m == 0 then
      if o.code == EXACT then "" else if o.code == PLUS then "^+" else "^-"
    else if o.code == LENGTH && o.n == o.m then "^" + Digits(o.n)
    else if o.code == RANGE then "^" + Digits(o.n) + "-" + Digits(o.m)
    else "^?" + Digits(o.code) + "/" + Digits(o.n) + "/" + Digits(o.m)
  }

  function WriteAs(e: AsExpr, rest: string): string {
    match e
    case AsNum(a) => "AS" + (Digits(a) + rest)
    case AsSetRef(n) => "set(" + (n + (")" + rest))
    case AsTemplate(t) => "tpl(" + (t + (")" + rest))
    case AsBinary(op, l, r) => "(" + WriteAs(l, " " + (Digits(op) + (" " + WriteAs(r, ")" + rest))))
    case AsUnknown => rest
  }

  function WritePath(e: PathExpr, rest: string): string
    decreases e, 1
  {
    match e
    case AltNil => "altnil" + rest
    case Alt(es) => "alt(" + WritePaths(es, ")" + rest)
    case SeqNil => "seqnil" + rest
    case Seq(es) => "seq(" + WritePaths(es, ")" + rest)
    case Repeat(x, op, min, max, same) =>
      "rep(" + WritePath(x, "," +
        (Itoa(op) + ("," + (Itoa(min) + ("," + (Itoa(max) + ("," + (Bool(same) + (")" + rest)))))))))
    case PathAny => "." + rest
    case PathAsn(a) => "AS" + (Digits(a) + rest)
    case PathSet(n) => "set(" + (n + (")" + rest))
    case PathTemplate(t) => "tpl(" + (t + (")" + rest))
    case PathPeer => "PeerAS" + rest
    case PathStart => "^" + rest
    case PathEnd => "$" + rest
    case ClassNil(neg) => "class(" + (Bool(neg) + ("," + ("nil" + (")" + rest))))
    case Class(neg, es) => "class(" + (Bool(neg) + ("," + ("(" + WritePaths(es, ")" + (")" + rest)))))
    case AsnRange(lo, hi) => "range(" + ("AS" + (Digits(lo) + ("," + ("AS" + (Digits(hi) + (")" + rest))))))
    case PathUnknown => rest
  }

  function WritePaths(es: seq<PathExpr>, rest: string): string
    decreases es, 0
  {
    if es == [] then rest else WritePath(es[0], "," + WritePaths(es[1..], rest))
  }

  function WriteRanges(rs: seq<string>, rest: string): string {
    if rs == [] then rest else rs[0] + (";" + WriteRanges(rs[1..], rest))
  }

  function WriteValues(esc: Escapes, vs: seq<string>, rest: string): string {
    if vs == [] then rest else Quote(esc, vs[0]) + ("," + WriteValues(esc, vs[1..], rest))
  }

  function WriteFilter(esc: Escapes, f: Filter, rest: string): string
    decreases f, 1
  {
    match f
    case FAny => "ANY" + rest
    case FPeerAs(op) => "PeerAS" + (OpText(op) + rest)
    case FListNil => "{" + ("nil" + ("}" + rest))
    case FList(rs) => "{" + WriteRanges(rs, "}" + rest)
    case FAs(e, op) => "as(" + WriteAs(e, ")" + (OpText(op) + rest))
    case FSet(n, op) => "set(" + (n + (")" + (OpText(op) + rest)))
    case FTemplate(t, op) => "tpl(" + (t + (")" + (OpText(op) + rest)))
    case FPathNil(raw) => "re(" + (Quote(esc, raw) + ("," + ("nil" + (")" + rest))))
    case FPath(raw, e) => "re(" + (Quote(esc, raw) + ("," + WritePath(e, ")" + rest)))
    case FCommunityNil(op, raw) => "comm(" + (Digits(op) + ("," + (Quote(esc, raw) + ("," + ("nil" + (")" + rest))))))
    case FCommunity(op, raw, vs) =>
      "comm(" + (Digits(op) + ("," + (Quote(esc, raw) + ("," + ("[" + WriteValues(esc, vs, "]" + (")" + rest)))))))
    case FAndNil => "andnil" + rest
    case FAnd(fs) => "and(" + WriteFilters(esc, fs, ")" + rest)
    case FOrNil => "ornil" + rest
    case FOr(fs) => "or(" + WriteFilters(esc, fs, ")" + rest)
    case FNot(g) => "not(" + WriteFilter(esc, g, ")" + rest)
    case FUnknown => rest
  }

  function WriteFilters(esc: Escapes, fs: seq<Filter>, rest: string): string
    decreases fs, 0
  {
    if fs == [] then rest else WriteFilter(esc, fs[0], "," + WriteFilters(esc, fs[1..], rest))
  }

  /** memoText: the filter's text, if every node of it is known. */
  function MemoText(esc: Escapes, f: Filter): Option<string> {
    if Known(f) then Some(WriteFilter(esc, f, "")) else None
  }

  // ---- quoting ----

  /** No character's text starts another's, or with the closing quote. */
  ghost predicate SoundEscapes(esc: Escapes) {
    (forall c :: esc(c) != [] && esc(c)[0] != '"') &&
    forall c, d :: c != d ==> !(esc(c) <= esc(d))
  }

  function HexDigit(n: nat): (c: char)
    requires n < 16
  {
    if n < 10 then '0' + n as char else 'a' + (n - 10) as char
  }

  /** The last k hexadecimal digits of n. */
  function Hex(n: nat, k: nat): (s: string)
    ensures |s| == k
  {
    if k == 0 then [] else Hex(n / 16, k - 1) + [HexDigit(n % 16)]
  }

  function ShortEscape(c: char): Option<char> {
    if c == '\\' || c == '"' then Some(c)
    else if c == 7 as char then Some('a')
    else if c == 8 as char then Some('b')
    else if c == 12 as char then Some('f')
    else if c == '\n' then Some('n')
    else if c == '\r' then Some('r')
    else if c == '\t' then Some('t')
    else if c == 11 as char then Some('v')
    else None
  }

  /** A character as strconv.Quote writes it, where printable says which need no escape. */
  function GoEscape(printable: char -> bool, c: char): string {
    if ShortEscape(c).Some? then ['\\', ShortEscape(c).value]
    else if printable(c) then [c]
    else
      var n := c as int;
      if n < 0x20 || n == 0x7f then "\\x" + Hex(n, 2)
      else if n < 0x1_0000 then "\\u" + Hex(n, 4)
      else "\\U" + Hex(n, 8)
  }

  function Pow16(k: nat): (p: nat)
    ensures p > 0
  {
    if k == 0 then 1 else 16 * Pow16(k - 1)
  }

  lemma {:induction false} HexInjective(a: nat, b: nat, k: nat)
    requires a < Pow16(k) && b < Pow16(k) && Hex(a, k) == Hex(b, k)
    ensures a == b
    decreases k
  {
    if k > 0 {
      var x, y := Hex(a, k), Hex(b, k);
      assert x[..k - 1] == Hex(a / 16, k - 1) && y[..k - 1] == Hex(b / 16, k - 1);
      assert x[k - 1] == HexDigit(a % 16) && y[k - 1] == HexDigit(b % 16);
      HexInjective(a / 16, b / 16, k - 1);
    }
  }

  predicate Wide(printable: char -> bool, c: char) { ShortEscape(c).None? && !printable(c) }

  function WideEscape(printable: char -> bool, c: char): (k: nat)
    requires Wide(printable, c)
    ensures var x := GoEscape(printable, c);
            (k == 2 || k == 4 || k == 8) && c as int < Pow16(k) &&
            x == ['\\', if k == 2 then 'x' else if k == 4 then 'u' else 'U'] + Hex(c as int, k)
  {
    assert Pow16(0) == 1 && Pow16(1) == 16 && Pow16(2) == 256 && Pow16(3) == 4096 && Pow16(4) == 0x1_0000;
    assert Pow16(5) == 0x10_0000 && Pow16(6) == 0x100_0000 && Pow16(7) == 0x1000_0000 && Pow16(8) == 0x1_0000_0000;
    |GoEscape(printable, c)| - 2
  }

  lemma {:induction false} GoEscapeFree(printable: char -> bool, c: char, d: char)
    requires c != d
    ensures !(GoEscape(printable, c) <= GoEscape(printable, d))
  {
    var x, y := GoEscape(printable, c), GoEscape(printable, d);
    var j := if Wide(printable, c) then WideEscape(printable, c) else 0;
    var k := if Wide(printable, d) then WideEscape(printable, d) else 0;
    assert x[0] == if Plain(printable, c) then c else '\\';
    assert y[0] == if Plain(printable, d) then d else '\\';
    if j == k != 0 {
      assert Hex(c as int, k) != Hex(d as int, k) by { HexDiffers(c as int, d as int, k); }
      assert x[2..] == Hex(c as int, k) && y[2..] == Hex(d as int, k);
    } else {
      NotPrefix(x, y, if x[0] != y[0] then 0 else 1);
    }
  }

  predicate Plain(printable: char -> bool, c: char) { ShortEscape(c).None? && printable(c) }

  lemma {:induction false} NotPrefix(x: string, y: string, i: nat)
    requires i < |x| && (i >= |y| || x[i] != y[i])
    ensures !(x <= y)
  {
  }

  lemma {:induction false} HexDiffers(a: nat, b: nat, k: nat)
    requires a < Pow16(k) && b < Pow16(k) && a != b
    ensures Hex(a, k) != Hex(b, k)
  {
    if Hex(a, k) == Hex(b, k) { HexInjective(a, b, k); }
  }

  /** The quoting of strconv.Quote is such a one, whatever is printable. */
  lemma {:induction false} GoEscapesSound(printable: char -> bool)
    ensures SoundEscapes(c => GoEscape(printable, c))
  {
    var esc := c => GoEscape(printable, c);
    forall c, d | c != d ensures !(esc(c) <= esc(d)) {
      GoEscapeFree(printable, c, d);
    }
  }

  // ---- reading a text back, one part at a time ----

  lemma {:induction false} Cancel(pre: string, x: string, y: string)
    requires pre + x == pre + y
    ensures x == y
  {
    assert x == (pre + x)[|pre|..] && y == (pre + y)[|pre|..];
  }

  /** The character after a part, if any, is none of the part's own. */
  predicate StopsAt(p: char -> bool, s: string) { s == [] || !p(s[0]) }

  predicate Only(p: char -> bool, s: string) { forall i :: 0 <= i < |s| ==> p(s[i]) }

  /** How many characters of p's a text starts with. */
  function Run(p: char -> bool, s: string): nat { if s == [] || !p(s[0]) then 0 else 1 + Run(p, s[1..]) }

  lemma {:induction false} RunOf(p: char -> bool, x: string, s: string)
    requires Only(p, x) && StopsAt(p, s)
    ensures Run(p, x + s) == |x|
    decreases |x|
  {
    if x == [] {
      assert x + s == s;
    } else {
      assert (x + s)[1..] == x[1..] + s;
      RunOf(p, x[1..], s);
    }
  }

  lemma {:induction false} OneRun(p: char -> bool, x: string, y: string, s: string, t: string)
    requires x + s == y + t && Only(p, x) && Only(p, y) && StopsAt(p, s) && StopsAt(p, t)
    ensures x == y && s == t
  {
    RunOf(p, x, s);
    RunOf(p, y, t);
    var w := x + s;
    assert x == w[..|x|] && s == w[|x|..] && y == w[..|y|] && t == w[|y|..];
  }

  lemma {:induction false} DigitsInjective(a: nat, b: nat)
    requires Digits(a) == Digits(b)
    ensures a == b
  {
    var x, y := Digits(a), Digits(b);
    if a >= 10 && b >= 10 {
      assert x[..|x| - 1] == Digits(a / 10) && y[..|y| - 1] == Digits(b / 10);
      assert x[|x| - 1] == DigitOf(a % 10) && y[|y| - 1] == DigitOf(b % 10);
      DigitsInjective(a / 10, b / 10);
    } else if a < 10 && b < 10 {
      assert x[0] == y[0];
    }
  }

  /** A number ends where a character that is no digit stands. */
  lemma {:induction false} ReadDigits(a: nat, b: nat, s: string, t: string)
    requires Digits(a) + s == Digits(b) + t && StopsAt(IsDigit, s) && StopsAt(IsDigit, t)
    ensures a == b && s == t
  {
    OneRun(IsDigit, Digits(a), Digits(b), s, t);
    DigitsInjective(a, b);
  }

  function Sign(n: int): string { if n < 0 then "-" else "" }

  function Magnitude(n: int): nat { if n < 0 then -n else n }

  lemma {:induction false} ItoaParts(n: int, s: string)
    ensures Itoa(n) + s == Sign(n) + (Digits(Magnitude(n)) + s)
    ensures (Itoa(n) + s)[0] == '-' <==> n < 0
  {
    assert Itoa(n) == Sign(n) + Digits(Magnitude(n));
    assert (Itoa(n) + s)[0] == Itoa(n)[0];
  }

  lemma {:induction false} ReadItoa(a: int, b: int, s: string, t: string)
    requires Itoa(a) + s == Itoa(b) + t && StopsAt(IsDigit, s) && StopsAt(IsDigit, t)
    ensures a == b && s == t
  {
    ItoaParts(a, s);
    ItoaParts(b, t);
    Cancel(Sign(a), Digits(Magnitude(a)) + s, Digits(Magnitude(b)) + t);
    ReadDigits(Magnitude(a), Magnitude(b), s, t);
  }

  lemma {:induction false} ReadBool(a: bool, b: bool, s: string, t: string)
    requires Bool(a) + s == Bool(b) + t
    ensures a == b && s == t
  {
    assert (Bool(a) + s)[0] == Bool(a)[0] && (Bool(b) + t)[0] == Bool(b)[0];
    Cancel(Bool(a), s, t);
  }

  lemma {:induction false} ReadName(a: string, b: string, s: string, t: string)
    requires IsName(a) && IsName(b) && a + (")" + s) == b + (")" + t)
    ensures a == b && s == t
  {
    OneRun(IsNameChar, a, b, ")" + s, ")" + t);
    Cancel(")", s, t);
  }

  lemma {:induction false} EscapedParts(esc: Escapes, a: string, s: string)
    requires SoundEscapes(esc)
    ensures var w := Escaped(esc, a) + ("\"" + s);
            (w[0] == '"' <==> a == []) &&
            w == if a == [] then "\"" + s else esc(a[0]) + (Escaped(esc, a[1..]) + ("\"" + s))
  {
    if a != [] { assert Escaped(esc, a)[0] == esc(a[0])[0]; }
  }

  lemma {:induction false} ReadEscaped(esc: Escapes, a: string, b: string, s: string, t: string)
    requires SoundEscapes(esc) && Escaped(esc, a) + ("\"" + s) == Escaped(esc, b) + ("\"" + t)
    ensures a == b && s == t
    decreases |a|
  {
    EscapedParts(esc, a, s);
    EscapedParts(esc, b, t);
    if a != [] && b != [] {
      var x, y, w := esc(a[0]), esc(b[0]), Escaped(esc, a) + ("\"" + s);
      assert x == w[..|x|] && y == w[..|y|];
      assert |x| <= |y| ==> x <= y;
      assert |y| <= |x| ==> y <= x;
      Cancel(x, Escaped(esc, a[1..]) + ("\"" + s), Escaped(esc, b[1..]) + ("\"" + t));
      ReadEscaped(esc, a[1..], b[1..], s, t);
      assert a == [a[0]] + a[1..] && b == [b[0]] + b[1..];
    } else {
      Cancel("\"", s, t);
    }
  }

  lemma {:induction false} ReadQuote(esc: Escapes, a: string, b: string, s: string, t: string)
    requires SoundEscapes(esc) && Quote(esc, a) + s == Quote(esc, b) + t
    ensures a == b && s == t
  {
    assert Quote(esc, a) + s == "\"" + (Escaped(esc, a) + ("\"" + s));
    assert Quote(esc, b) + t == "\"" + (Escaped(esc, b) + ("\"" + t));
    Cancel("\"", Escaped(esc, a) + ("\"" + s), Escaped(esc, b) + ("\"" + t));
    ReadEscaped(esc, a, b, s, t);
  }

  // ---- range operators ----

  predicate IsOpChar(c: char) { IsDigit(c) || c == '^' || c == '+' || c == '-' || c == '?' || c == '/' }

  lemma {:induction false} OpTextOnly(o: OpFields)
    ensures Only(IsOpChar, OpText(o))
  {
  }

  /** Which form an operator's text has. */
  function OpForm(s: string): nat {
    if s == [] then 0
    else if |s| < 2 then 9
    else if s[1] == '+' then 1
    else if s[1] == '-' then 2
    else if s[1] == '?' then 4
    else 3
  }

  function FormOf(o: OpFields): nat {
    if (o.code == EXACT || o.code == PLUS || o.code == MINUS) && o.n == 0 && o.m == 0 then
      if o.code == EXACT then 0 else if o.code == PLUS then 1 else 2
    else if (o.code == LENGTH && o.n == o.m) || o.code == RANGE then 3
    else 4
  }

  lemma {:induction false} OpFormOf(o: OpFields)
    ensures OpForm(OpText(o)) == FormOf(o)
  {
    if FormOf(o) == 3 { assert OpText(o)[1] == Digits(o.n)[0]; }
  }

  function LengthPart(o: OpFields): string { if o.code == RANGE then "-" + Digits(o.m) else "" }

  lemma {:induction false} LengthsInjective(o: OpFields, p: OpFields)
    requires FormOf(o) == FormOf(p) == 3 && OpText(o) == OpText(p)
    ensures o == p
  {
    assert OpText(o) == "^" + (Digits(o.n) + LengthPart(o)) && OpText(p) == "^" + (Digits(p.n) + LengthPart(p));
    Cancel("^", Digits(o.n) + LengthPart(o), Digits(p.n) + LengthPart(p));
    ReadDigits(o.n, p.n, LengthPart(o), LengthPart(p));
    if o.code == RANGE && p.code == RANGE {
      Cancel("-", Digits(o.m), Digits(p.m));
      DigitsInjective(o.m, p.m);
    }
  }

  function Fields(o: OpFields): string { Digits(o.code) + ("/" + (Digits(o.n) + ("/" + Digits(o.m)))) }

  lemma {:induction false} FieldsText(o: OpFields)
    requires FormOf(o) == 4
    ensures OpText(o) == "^?" + Fields(o)
  {
  }

  lemma {:induction false} FieldsInjective(o: OpFields, p: OpFields)
    requires FormOf(o) == FormOf(p) == 4 && OpText(o) == OpText(p)
    ensures o == p
  {
    FieldsText(o);
    FieldsText(p);
    Cancel("^?", Fields(o), Fields(p));
    var x, y := "/" + (Digits(o.n) + ("/" + Digits(o.m))), "/" + (Digits(p.n) + ("/" + Digits(p.m)));
    ReadDigits(o.code, p.code, x, y);
    Cancel("/", Digits(o.n) + ("/" + Digits(o.m)), Digits(p.n) + ("/" + Digits(p.m)));
    ReadDigits(o.n, p.n, "/" + Digits(o.m), "/" + Digits(p.m));
    Cancel("/", Digits(o.m), Digits(p.m));
    DigitsInjective(o.m, p.m);
  }

  lemma {:induction false} OpTextInjective(o: OpFields, p: OpFields)
    requires OpText(o) == OpText(p)
    ensures o == p
  {
    OpFormOf(o);
    OpFormOf(p);
    if FormOf(o) == 3 {
      LengthsInjective(o, p);
    } else if FormOf(o) == 4 {
      FieldsInjective(o, p);
    }
  }

  lemma {:induction false} ReadOp(o: OpFields, p: OpFields, s: string, t: string)
    requires OpText(o) + s == OpText(p) + t && StopsAt(IsOpChar, s) && StopsAt(IsOpChar, t)
    ensures o == p && s == t
  {
    OpTextOnly(o);
    OpTextOnly(p);
    OneRun(IsOpChar, OpText(o), OpText(p), s, t);
    OpTextInjective(o, p);
  }

  // ---- AS expressions ----

  function At(s: string, i: nat): char { if i < |s| then s[i] else ' ' }

  /** Which node a text starts with. */
  function AsKind(s: string): nat {
    if At(s, 0) == 'A' then 1 else if At(s, 0) == 's' then 2 else if At(s, 0) == 't' then 3
    else if At(s, 0) == '(' then 4 else 0
  }

  function AsKindOf(e: AsExpr): nat {
    match e
    case AsNum(_) => 1
    case AsSetRef(_) => 2
    case AsTemplate(_) => 3
    case AsBinary(_, _, _) => 4
    case AsUnknown => 0
  }

  lemma {:induction false} AsKinds(e: AsExpr, s: string)
    requires KnownAs(e)
    ensures AsKind(WriteAs(e, s)) == AsKindOf(e)
  {
  }

  lemma {:induction false} ReadAs(e: AsExpr, f: AsExpr, s: string, t: string)
    requires KnownAs(e) && KnownAs(f) && WriteAs(e, s) == WriteAs(f, t) && StopsAt(IsDigit, s) && StopsAt(IsDigit, t)
    ensures e == f && s == t
  {
    AsKinds(e, s);
    AsKinds(f, t);
    match e
    case AsNum(a) =>
      Cancel("AS", Digits(a) + s, Digits(f.asn) + t);
      ReadDigits(a, f.asn, s, t);
    case AsSetRef(n) =>
      Cancel("set(", n + (")" + s), f.name + (")" + t));
      ReadName(n, f.name, s, t);
    case AsTemplate(n) =>
      Cancel("tpl(", n + (")" + s), f.text + (")" + t));
      ReadName(n, f.text, s, t);
    case AsBinary(op, l, r) =>
      var y, y' := WriteAs(r, ")" + s), WriteAs(f.r, ")" + t);
      var x, x' := " " + (Digits(op) + (" " + y)), " " + (Digits(f.op) + (" " + y'));
      Cancel("(", WriteAs(l, x), WriteAs(f.l, x'));
      ReadAs(l, f.l, x, x');
      Cancel(" ", Digits(op) + (" " + y), Digits(f.op) + (" " + y'));
      ReadDigits(op, f.op, " " + y, " " + y');
      Cancel(" ", y, y');
      ReadAs(r, f.r, ")" + s, ")" + t);
      Cancel(")", s, t);
  }

  // ---- AS-path regexps ----

  function PathKind(s: string): nat {
    match At(s, 0)
    case 'a' => if At(s, 3) == 'n' then 1 else 2
    case 's' => if At(s, 2) == 't' then 8 else if At(s, 3) == 'n' then 3 else 4
    case 'r' => if At(s, 1) == 'e' then 5 else 14
    case '.' => 6
    case 'A' => 7
    case 't' => 9
    case 'P' => 10
    case '^' => 11
    case '$' => 12
    case 'c' => 13
    case _ => 0
  }

  function PathKindOf(e: PathExpr): nat {
    match e
    case AltNil => 1
    case Alt(_) => 2
    case SeqNil => 3
    case Seq(_) => 4
    case Repeat(_, _, _, _, _) => 5
    case PathAny => 6
    case PathAsn(_) => 7
    case PathSet(_) => 8
    case PathTemplate(_) => 9
    case PathPeer => 10
    case PathStart => 11
    case PathEnd => 12
    case ClassNil(_) => 13
    case Class(_, _) => 13
    case AsnRange(_, _) => 14
    case PathUnknown => 0
  }

  lemma {:induction false} PathKinds(e: PathExpr, s: string)
    requires KnownPath(e)
    ensures PathKind(WritePath(e, s)) == PathKindOf(e) > 0
  {
  }

  predicate AllKnownPaths(es: seq<PathExpr>) { forall i :: 0 <= i < |es| ==> KnownPath(es[i]) }

  lemma {:induction false} ReadPath(e: PathExpr, f: PathExpr, s: string, t: string)
    requires KnownPath(e) && KnownPath(f) && WritePath(e, s) == WritePath(f, t) && StopsAt(IsDigit, s)
    requires StopsAt(IsDigit, t)
    ensures e == f && s == t
    decreases e, 1
  {
    PathKinds(e, s);
    PathKinds(f, t);
    match e
    case AltNil => Cancel("altnil", s, t);
    case Alt(es) =>
      Cancel("alt(", WritePaths(es, ")" + s), WritePaths(f.es, ")" + t));
      ReadPaths(es, f.es, s, t);
    case SeqNil => Cancel("seqnil", s, t);
    case Seq(es) =>
      Cancel("seq(", WritePaths(es, ")" + s), WritePaths(f.es, ")" + t));
      ReadPaths(es, f.es, s, t);
    case Repeat(x, _, _, _, _) => ReadRepeat(e, f, s, t);
    case PathAny => Cancel(".", s, t);
    case PathAsn(a) =>
      Cancel("AS", Digits(a) + s, Digits(f.asn) + t);
      ReadDigits(a, f.asn, s, t);
    case PathSet(n) =>
      Cancel("set(", n + (")" + s), f.name + (")" + t));
      ReadName(n, f.name, s, t);
    case PathTemplate(n) =>
      Cancel("tpl(", n + (")" + s), f.text + (")" + t));
      ReadName(n, f.text, s, t);
    case PathPeer => Cancel("PeerAS", s, t);
    case PathStart => Cancel("^", s, t);
    case PathEnd => Cancel("$", s, t);
    case ClassNil(_) => ReadClass(e, f, s, t);
    case Class(_, _) => ReadClass(e, f, s, t);
    case AsnRange(lo, hi) =>
      var x, x' := "AS" + (Digits(hi) + (")" + s)), "AS" + (Digits(f.hi) + (")" + t));
      Cancel("range(", "AS" + (Digits(lo) + ("," + x)), "AS" + (Digits(f.lo) + ("," + x')));
      Cancel("AS", Digits(lo) + ("," + x), Digits(f.lo) + ("," + x'));
      ReadDigits(lo, f.lo, "," + x, "," + x');
      Cancel(",", x, x');
      Cancel("AS", Digits(hi) + (")" + s), Digits(f.hi) + (")" + t));
      ReadDigits(hi, f.hi, ")" + s, ")" + t);
      Cancel(")", s, t);
  }

  /** What follows a repeated term. */
  function Tail(e: PathExpr, rest: string): string
    requires e.Repeat?
  {
    "," + (Itoa(e.op) + ("," + (Itoa(e.min) + ("," + (Itoa(e.max) + ("," + (Bool(e.same) + (")" + rest))))))))
  }

  lemma {:induction false} ReadRepeat(e: PathExpr, f: PathExpr, s: string, t: string)
    requires e.Repeat? && f.Repeat? && KnownPath(e) && KnownPath(f) && WritePath(e, s) == WritePath(f, t)
    ensures e == f && s == t
    decreases e, 0
  {
    Cancel("rep(", WritePath(e.inner, Tail(e, s)), WritePath(f.inner, Tail(f, t)));
    ReadPath(e.inner, f.inner, Tail(e, s), Tail(f, t));
    var z, z' := "," + (Bool(e.same) + (")" + s)), "," + (Bool(f.same) + (")" + t));
    var y, y' := "," + (Itoa(e.max) + z), "," + (Itoa(f.max) + z');
    var x, x' := "," + (Itoa(e.min) + y), "," + (Itoa(f.min) + y');
    Cancel(",", Itoa(e.op) + x, Itoa(f.op) + x');
    ReadItoa(e.op, f.op, x, x');
    Cancel(",", Itoa(e.min) + y, Itoa(f.min) + y');
    ReadItoa(e.min, f.min, y, y');
    Cancel(",", Itoa(e.max) + z, Itoa(f.max) + z');
    ReadItoa(e.max, f.max, z, z');
    Cancel(",", Bool(e.same) + (")" + s), Bool(f.same) + (")" + t));
    ReadBool(e.same, f.same, ")" + s, ")" + t);
    Cancel(")", s, t);
  }

  /** What follows a class's polarity. */
  function Items(e: PathExpr, rest: string): string
    requires e.ClassNil? || e.Class?
  {
    if e.ClassNil? then "nil" + (")" + rest) else "(" + WritePaths(e.es, ")" + (")" + rest))
  }

  lemma {:induction false} ReadClass(e: PathExpr, f: PathExpr, s: string, t: string)
    requires (e.ClassNil? || e.Class?) && (f.ClassNil? || f.Class?) && KnownPath(e) && KnownPath(f)
    requires WritePath(e, s) == WritePath(f, t)
    ensures e == f && s == t
    decreases e, 0
  {
    Cancel("class(", Bool(e.negated) + ("," + Items(e, s)), Bool(f.negated) + ("," + Items(f, t)));
    ReadBool(e.negated, f.negated, "," + Items(e, s), "," + Items(f, t));
    Cancel(",", Items(e, s), Items(f, t));
    assert Items(e, s)[0] == (if e.ClassNil? then 'n' else '(') && Items(f, t)[0] == (if f.ClassNil? then 'n' else '(');
    if e.Class? {
      Cancel("(", WritePaths(e.es, ")" + (")" + s)), WritePaths(f.es, ")" + (")" + t)));
      ReadPaths(e.es, f.es, ")" + s, ")" + t);
    } else {
      Cancel("nil", ")" + s, ")" + t);
    }
    Cancel(")", s, t);
  }

  lemma {:induction false} ReadPaths(es: seq<PathExpr>, fs: seq<PathExpr>, s: string, t: string)
    requires AllKnownPaths(es) && AllKnownPaths(fs) && WritePaths(es, ")" + s) == WritePaths(fs, ")" + t)
    ensures es == fs && s == t
    decreases es, 0
  {
    if es != [] { PathKinds(es[0], "," + WritePaths(es[1..], ")" + s)); }
    if fs != [] { PathKinds(fs[0], "," + WritePaths(fs[1..], ")" + t)); }
    if es == [] || fs == [] {
      assert PathKind(")" + s) == 0 && PathKind(")" + t) == 0;
      Cancel(")", s, t);
    } else {
      var x, x' := WritePaths(es[1..], ")" + s), WritePaths(fs[1..], ")" + t);
      ReadPath(es[0], fs[0], "," + x, "," + x');
      Cancel(",", x, x');
      ReadPaths(es[1..], fs[1..], s, t);
      assert es == [es[0]] + es[1..] && fs == [fs[0]] + fs[1..];
    }
  }

  // ---- filters ----

  function Kind(s: string): nat {
    match At(s, 0)
    case 'A' => 1
    case 'P' => 2
    case '{' => 3
    case 's' => 5
    case 't' => 6
    case 'r' => 7
    case 'c' => 8
    case 'a' => if At(s, 1) == 's' then 4 else if At(s, 3) == 'n' then 9 else 10
    case 'o' => if At(s, 2) == 'n' then 11 else 12
    case 'n' => 13
    case _ => 0
  }

  function KindOf(f: Filter): nat {
    match f
    case FAny => 1
    case FPeerAs(_) => 2
    case FListNil => 3
    case FList(_) => 3
    case FAs(_, _) => 4
    case FSet(_, _) => 5
    case FTemplate(_, _) => 6
    case FPathNil(_) => 7
    case FPath(_, _) => 7
    case FCommunityNil(_, _) => 8
    case FCommunity(_, _, _) => 8
    case FAndNil => 9
    case FAnd(_) => 10
    case FOrNil => 11
    case FOr(_) => 12
    case FNot(_) => 13
    case FUnknown => 0
  }

  lemma {:induction false} Kinds(esc: Escapes, f: Filter, s: string)
    requires Known(f)
    ensures Kind(WriteFilter(esc, f, s)) == KindOf(f) > 0
  {
  }

  predicate AllRanges(rs: seq<string>) { forall i :: 0 <= i < |rs| ==> IsRange(rs[i]) }

  lemma {:induction false} ReadRanges(rs: seq<string>, qs: seq<string>, s: string, t: string)
    requires AllRanges(rs) && AllRanges(qs) && WriteRanges(rs, "}" + s) == WriteRanges(qs, "}" + t)
    ensures rs == qs && s == t
    decreases |rs|
  {
    var x := if rs == [] then "" else rs[0];
    var y := if qs == [] then "" else qs[0];
    var u := if rs == [] then "}" + s else ";" + WriteRanges(rs[1..], "}" + s);
    var v := if qs == [] then "}" + t else ";" + WriteRanges(qs[1..], "}" + t);
    assert x + u == WriteRanges(rs, "}" + s) && y + v == WriteRanges(qs, "}" + t);
    OneRun(IsRangeChar, x, y, u, v);
    if rs == [] || qs == [] {
      assert u[0] == v[0];
      Cancel("}", s, t);
    } else {
      Cancel(";", WriteRanges(rs[1..], "}" + s), WriteRanges(qs[1..], "}" + t));
      ReadRanges(rs[1..], qs[1..], s, t);
      assert rs == [rs[0]] + rs[1..] && qs == [qs[0]] + qs[1..];
    }
  }

  /** "nil" is not a list of ranges: each of those is closed by ';'. */
  lemma {:induction false} NilIsNoRanges(rs: seq<string>, s: string, t: string)
    requires AllRanges(rs)
    ensures WriteRanges(rs, "}" + s) != "nil" + ("}" + t)
  {
    assert ("nil" + ("}" + t))[0] == 'n' && ("}" + t)[0] == '}' && ("}" + s)[0] == '}';
    if rs != [] && WriteRanges(rs, "}" + s) == "nil" + ("}" + t) {
      OneRun(IsRangeChar, rs[0], "nil", ";" + WriteRanges(rs[1..], "}" + s), "}" + t);
    }
  }

  lemma {:induction false} ReadList(esc: Escapes, f: Filter, g: Filter, s: string, t: string)
    requires KindOf(f) == KindOf(g) == 3 && Known(f) && Known(g) && WriteFilter(esc, f, s) == WriteFilter(esc, g, t)
    ensures f == g && s == t
  {
    var x := if f.FListNil? then "nil" + ("}" + s) else WriteRanges(f.ranges, "}" + s);
    var y := if g.FListNil? then "nil" + ("}" + t) else WriteRanges(g.ranges, "}" + t);
    Cancel("{", x, y);
    if f.FListNil? && g.FListNil? {
      Cancel("nil", "}" + s, "}" + t);
      Cancel("}", s, t);
    } else if f.FListNil? {
      NilIsNoRanges(g.ranges, t, s);
    } else if g.FListNil? {
      NilIsNoRanges(f.ranges, s, t);
    } else {
      ReadRanges(f.ranges, g.ranges, s, t);
    }
  }

  lemma {:induction false} ReadValues(esc: Escapes, vs: seq<string>, ws: seq<string>, s: string, t: string)
    requires SoundEscapes(esc) && WriteValues(esc, vs, "]" + s) == WriteValues(esc, ws, "]" + t)
    ensures vs == ws && s == t
    decreases |vs|
  {
    if vs != [] { assert WriteValues(esc, vs, "]" + s)[0] == '"'; }
    if ws != [] { assert WriteValues(esc, ws, "]" + t)[0] == '"'; }
    if vs == [] || ws == [] {
      assert ("]" + s)[0] == ']' && ("]" + t)[0] == ']';
      Cancel("]", s, t);
    } else {
      var x, x' := WriteValues(esc, vs[1..], "]" + s), WriteValues(esc, ws[1..], "]" + t);
      ReadQuote(esc, vs[0], ws[0], "," + x, "," + x');
      Cancel(",", x, x');
      ReadValues(esc, vs[1..], ws[1..], s, t);
      assert vs == [vs[0]] + vs[1..] && ws == [ws[0]] + ws[1..];
    }
  }

  lemma {:induction false} ReadPathTest(esc: Escapes, f: Filter, g: Filter, s: string, t: string)
    requires SoundEscapes(esc) && KindOf(f) == KindOf(g) == 7 && Known(f) && Known(g)
    requires WriteFilter(esc, f, s) == WriteFilter(esc, g, t)
    ensures f == g && s == t
  {
    var x := if f.FPathNil? then "nil" + (")" + s) else WritePath(f.body, ")" + s);
    var y := if g.FPathNil? then "nil" + (")" + t) else WritePath(g.body, ")" + t);
    Cancel("re(", Quote(esc, f.raw) + ("," + x), Quote(esc, g.raw) + ("," + y));
    ReadQuote(esc, f.raw, g.raw, "," + x, "," + y);
    Cancel(",", x, y);
    assert PathKind("nil" + (")" + s)) == 0 && PathKind("nil" + (")" + t)) == 0;
    if f.FPath? { PathKinds(f.body, ")" + s); }
    if g.FPath? { PathKinds(g.body, ")" + t); }
    if f.FPath? { ReadPath(f.body, g.body, ")" + s, ")" + t); } else { Cancel("nil", ")" + s, ")" + t); }
    Cancel(")", s, t);
  }

  lemma {:induction false} ReadCommunity(esc: Escapes, f: Filter, g: Filter, s: string, t: string)
    requires SoundEscapes(esc) && KindOf(f) == KindOf(g) == 8 && WriteFilter(esc, f, s) == WriteFilter(esc, g, t)
    ensures f == g && s == t
  {
    var x := if f.FCommunityNil? then "nil" + (")" + s) else "[" + WriteValues(esc, f.values, "]" + (")" + s));
    var y := if g.FCommunityNil? then "nil" + (")" + t) else "[" + WriteValues(esc, g.values, "]" + (")" + t));
    var u, v := "," + (Quote(esc, f.raw) + ("," + x)), "," + (Quote(esc, g.raw) + ("," + y));
    Cancel("comm(", Digits(f.code) + u, Digits(g.code) + v);
    ReadDigits(f.code, g.code, u, v);
    Cancel(",", Quote(esc, f.raw) + ("," + x), Quote(esc, g.raw) + ("," + y));
    ReadQuote(esc, f.raw, g.raw, "," + x, "," + y);
    Cancel(",", x, y);
    assert x[0] == (if f.FCommunityNil? then 'n' else '[') && y[0] == (if g.FCommunityNil? then 'n' else '[');
    if f.FCommunity? {
      Cancel("[", WriteValues(esc, f.values, "]" + (")" + s)), WriteValues(esc, g.values, "]" + (")" + t)));
      ReadValues(esc, f.values, g.values, ")" + s, ")" + t);
    } else {
      Cancel("nil", ")" + s, ")" + t);
    }
    Cancel(")", s, t);
  }

  predicate AllKnown(fs: seq<Filter>) { forall i :: 0 <= i < |fs| ==> Known(fs[i]) }

  lemma {:induction false} ReadFilter(esc: Escapes, f: Filter, g: Filter, s: string, t: string)
    requires SoundEscapes(esc) && Known(f) && Known(g) && WriteFilter(esc, f, s) == WriteFilter(esc, g, t)
    requires StopsAt(IsOpChar, s) && StopsAt(IsOpChar, t)
    ensures f == g && s == t
    decreases f, 1
  {
    Kinds(esc, f, s);
    Kinds(esc, g, t);
    match f
    case FAny => Cancel("ANY", s, t);
    case FPeerAs(op) =>
      Cancel("PeerAS", OpText(op) + s, OpText(g.op) + t);
      ReadOp(op, g.op, s, t);
    case FListNil => ReadList(esc, f, g, s, t);
    case FList(_) => ReadList(esc, f, g, s, t);
    case FAs(e, op) =>
      Cancel("as(", WriteAs(e, ")" + (OpText(op) + s)), WriteAs(g.expr, ")" + (OpText(g.op) + t)));
      ReadAs(e, g.expr, ")" + (OpText(op) + s), ")" + (OpText(g.op) + t));
      Cancel(")", OpText(op) + s, OpText(g.op) + t);
      ReadOp(op, g.op, s, t);
    case FSet(n, op) =>
      Cancel("set(", n + (")" + (OpText(op) + s)), g.name + (")" + (OpText(g.op) + t)));
      ReadName(n, g.name, OpText(op) + s, OpText(g.op) + t);
      ReadOp(op, g.op, s, t);
    case FTemplate(n, op) =>
      Cancel("tpl(", n + (")" + (OpText(op) + s)), g.text + (")" + (OpText(g.op) + t)));
      ReadName(n, g.text, OpText(op) + s, OpText(g.op) + t);
      ReadOp(op, g.op, s, t);
    case FPathNil(_) => ReadPathTest(esc, f, g, s, t);
    case FPath(_, _) => ReadPathTest(esc, f, g, s, t);
    case FCommunityNil(_, _) => ReadCommunity(esc, f, g, s, t);
    case FCommunity(_, _, _) => ReadCommunity(esc, f, g, s, t);
    case FAndNil => Cancel("andnil", s, t);
    case FAnd(fs) =>
      Cancel("and(", WriteFilters(esc, fs, ")" + s), WriteFilters(esc, g.terms, ")" + t));
      ReadFilters(esc, fs, g.terms, s, t);
    case FOrNil => Cancel("ornil", s, t);
    case FOr(fs) =>
      Cancel("or(", WriteFilters(esc, fs, ")" + s), WriteFilters(esc, g.terms, ")" + t));
      ReadFilters(esc, fs, g.terms, s, t);
    case FNot(x) =>
      Cancel("not(", WriteFilter(esc, x, ")" + s), WriteFilter(esc, g.inner, ")" + t));
      ReadFilter(esc, x, g.inner, ")" + s, ")" + t);
      Cancel(")", s, t);
  }

  lemma {:induction false} ReadFilters(esc: Escapes, fs: seq<Filter>, gs: seq<Filter>, s: string, t: string)
    requires SoundEscapes(esc) && AllKnown(fs) && AllKnown(gs)
    requires WriteFilters(esc, fs, ")" + s) == WriteFilters(esc, gs, ")" + t)
    ensures fs == gs && s == t
    decreases fs, 0
  {
    if fs != [] { Kinds(esc, fs[0], "," + WriteFilters(esc, fs[1..], ")" + s)); }
    if gs != [] { Kinds(esc, gs[0], "," + WriteFilters(esc, gs[1..], ")" + t)); }
    if fs == [] || gs == [] {
      assert Kind(")" + s) == 0 && Kind(")" + t) == 0;
      Cancel(")", s, t);
    } else {
      var x, x' := WriteFilters(esc, fs[1..], ")" + s), WriteFilters(esc, gs[1..], ")" + t);
      ReadFilter(esc, fs[0], gs[0], "," + x, "," + x');
      Cancel(",", x, x');
      ReadFilters(esc, fs[1..], gs[1..], s, t);
      assert fs == [fs[0]] + fs[1..] && gs == [gs[0]] + gs[1..];
    }
  }

  /** Different filters have different texts. */
  lemma {:induction false} MemoTextInjective(esc: Escapes, f: Filter, g: Filter)
    requires SoundEscapes(esc) && MemoText(esc, f).Some? && MemoText(esc, f) == MemoText(esc, g)
    ensures f == g
  {
    ReadFilter(esc, f, g, "", "");
  }
}
