/** Counting finite sets. */
module Sets {

  lemma {:induction false} SubsetCount<T>(a: set<T>, b: set<T>)
    requires a <= b
    ensures |a| <= |b|
    decreases |a|
  {
    if x :| x in a {
      SubsetCount(a - {x}, b - {x});
    }
  }
}
