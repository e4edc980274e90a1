/** Facts about sequences and sets that several modules use. */
module Collections {
  lemma {:induction false} Assoc<T>(a: seq<T>, b: seq<T>, c: seq<T>)
    ensures (a + b) + c == a + (b + c)
  {
  }

  lemma Pick<T>(m: set<T>) returns (l: T)
    requires m != {}
    ensures l in m
  {
    l :| l in m;
  }
}
