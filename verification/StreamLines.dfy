/** A stream's objects by the characters of its lines (stream.go:247-288, 475-507). */
module StreamLines {
  import opened Lexer
  import opened LexerLines
  import opened StreamObjects

  ghost predicate SpacesAt(ls: seq<string>, i: int) { 0 <= i < |ls| && AllSpaces(Text(ls[i])) }

  ghost predicate OpensAt(ls: seq<string>, i: int) { 0 <= i < |ls| && OpensLine(Text(ls[i])) }

  ghost predicate NoneOpensFrom(ls: seq<string>, i: int) { forall x :: i <= x < |ls| ==> !OpensAt(ls, x) }

  /** The lines from s to before e are one object: unless it is the first, it starts at a line of spaces and tabs;
      a line of it starts an attribute, unless none of the input does; after that there is no line of spaces and
      tabs, but in the last object, and from there on nothing starts an attribute. */
  ghost predicate ObjectLines(ls: seq<string>, s: nat, e: nat) {
    && s < e <= |ls|
    && (s > 0 ==> SpacesAt(ls, s))
    && ((exists o :: s <= o < e && OpensAt(ls, o)) || (s == 0 && e == |ls|))
    && (forall o, x :: s <= o < x < e && OpensAt(ls, o) && SpacesAt(ls, x) ==> e == |ls| && NoneOpensFrom(ls, x))
    && (e < |ls| ==> SpacesAt(ls, e) && !NoneOpensFrom(ls, e))
  }

  /** ends divides the lines from the one at from on into objects. */
  ghost predicate LinesDivide(ls: seq<string>, from: nat, ends: seq<nat>)
    decreases |ends|
  {
    if ends == [] then from == |ls| else ObjectLines(ls, from, ends[0]) && LinesDivide(ls, ends[0], ends[1..])
  }

  lemma {:induction false} KindIs(ls: seq<string>, i: nat)
    requires i < |ls|
    ensures |Kinds(ls)| == |ls|
    ensures Kinds(ls)[i].Empty? <==> SpacesAt(ls, i)
    ensures Kinds(ls)[i].Opens? <==> OpensAt(ls, i)
  {
    KindAt(ls, i);
    LineIs(Text(ls[i]));
  }

  /** ks has the kinds of the lines. */
  ghost predicate KindsAre(ls: seq<string>, ks: seq<LineKind>) {
    && |ks| == |ls|
    && (forall i :: 0 <= i < |ls| ==> (ks[i].Empty? <==> SpacesAt(ls, i)))
    && (forall i :: 0 <= i < |ls| ==> (ks[i].Opens? <==> OpensAt(ls, i)))
  }

  lemma {:induction false} OpensNext(ls: seq<string>, ks: seq<LineKind>, i: nat)
    requires KindsAre(ls, ks) && i <= |ls|
    ensures NextOpen(ks, i) == |ks| <==> NoneOpensFrom(ls, i)
  {
    var o := NextOpen(ks, i);
    if o < |ks| { assert OpensAt(ls, o); }
  }

  lemma {:induction false} ObjectIs(ls: seq<string>, ks: seq<LineKind>, s: nat, e: nat)
    requires KindsAre(ls, ks) && (s > 0 ==> SpacesAt(ls, s)) && OneObject(ks, s, e)
    ensures ObjectLines(ls, s, e)
  {
    var o := NextOpen(ks, s);
    var b := NextEmpty(ks, o);
    OpensNext(ls, ks, e);
    if o < e { assert OpensAt(ls, o); }
    forall p, x | s <= p < x < e && OpensAt(ls, p) && SpacesAt(ls, x) ensures e == |ls| && NoneOpensFrom(ls, x) {
      assert o <= p && b <= x;
    }
  }

  /** Of an object's lines after its first attribute, the first of spaces and tabs is in the last object. */
  lemma {:induction false} EmptyAfter(ls: seq<string>, ks: seq<LineKind>, o: nat, b: nat, s: nat, e: nat)
    requires KindsAre(ls, ks) && ObjectLines(ls, s, e) && s <= o < e && OpensAt(ls, o) && b == NextEmpty(ks, o)
    ensures b < e ==> e == |ks| && NoneOpens(ks, b, e)
  {
    if b < e {
      assert SpacesAt(ls, b);
      assert NoneOpensFrom(ls, b);
    }
  }

  lemma {:induction false} ObjectOnly(ls: seq<string>, ks: seq<LineKind>, s: nat, e: nat)
    requires KindsAre(ls, ks) && ObjectLines(ls, s, e)
    ensures OneObject(ks, s, e)
  {
    var o := NextOpen(ks, s);
    var b := NextEmpty(ks, o);
    OpensNext(ls, ks, e);
    if o < e { EmptyAfter(ls, ks, o, b, s, e); } else { assert forall p :: s <= p < e ==> !OpensAt(ls, p); }
  }

  /** The division by the kinds of the lines is the one by their characters. */
  lemma {:induction false} DivisionIs(ls: seq<string>, ks: seq<LineKind>, from: nat, ends: seq<nat>)
    requires KindsAre(ls, ks) && (0 < from < |ls| ==> SpacesAt(ls, from))
    ensures LinesDivide(ls, from, ends) <==> Divides(ks, from, ends)
    decreases |ends|
  {
    if ends != [] {
      if OneObject(ks, from, ends[0]) { ObjectIs(ls, ks, from, ends[0]); }
      if ObjectLines(ls, from, ends[0]) {
        ObjectOnly(ls, ks, from, ends[0]);
        DivisionIs(ls, ks, ends[0], ends[1..]);
      }
    }
  }

  /** The lines divide into objects in just one way, and the streaming parser's is it. */
  lemma {:induction false} OnlyLinesDivision(ls: seq<string>, ends: seq<nat>)
    ensures LinesDivide(ls, 0, ends) <==> ends == ObjectEnds(Kinds(ls), 0)
  {
    KindsLength(ls);
    forall i | 0 <= i < |ls|
      ensures (Kinds(ls)[i].Empty? <==> SpacesAt(ls, i)) && (Kinds(ls)[i].Opens? <==> OpensAt(ls, i))
    {
      KindIs(ls, i);
    }
    DivisionIs(ls, Kinds(ls), 0, ends);
    OnlyDivision(Kinds(ls), ends);
  }
}
