/** Sizes of finite sets. */
module Cardinality {
  lemma {:induction false} SubsetSize<T>(a: set<T>, b: set<T>)
    requires a <= b
    ensures |a| <= |b|
  {
    if a != {} {
      var x :| x in a;
      SubsetSize(a - {x}, b - {x});
    }
  }

  lemma UnionSize<T>(a: set<T>, b: set<T>)
    ensures |a + b| <= |a| + |b|
    ensures |a + b| + |a * b| == |a| + |b|
  {
    assert a + b == (a - b) + b && a == (a - b) + a * b;
  }
}
