/** Cardinality facts for the searches whose loops are bounded by the cells still left to
    visit. */
module SetFacts {

  /** A subset is no larger, and a proper one smaller. */
  lemma Smaller<T>(a: set<T>, b: set<T>)
    requires a <= b
    ensures |a| <= |b| && (a != b ==> |a| < |b|)
  {
    assert b == a + (b - a);
    if a != b {
      var x :| x in b - a;
      assert |b - a| >= |{x}|;
    }
  }

  /** Visiting a new element of a finite set leaves fewer of it to visit. */
  lemma Shrinks<T>(all: set<T>, before: set<T>, after: set<T>)
    requires before <= after && exists x :: x in all && x in after && x !in before
    ensures |all - after| < |all - before|
  {
    Smaller(all - after, all - before);
  }
}
