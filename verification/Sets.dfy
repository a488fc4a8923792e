/** Sizes of finite sets, and numbers outside them. */
module Sets {

  lemma {:induction false} SubsetSize<T>(a: set<T>, b: set<T>)
    requires a <= b
    ensures |a| <= |b|
  {
    if a != {} {
      var x :| x in a;
      SubsetSize(a - {x}, b - {x});
    }
  }

  lemma SubsetOfSameSize<T>(a: set<T>, b: set<T>)
    requires a <= b && |a| == |b|
    ensures a == b
  {
    assert |b - a| == 0;
    assert b == a + (b - a);
  }

  /** A natural number outside a finite set. */
  lemma {:induction false} FreshId(ids: set<nat>) returns (unused: nat)
    ensures unused !in ids && forall i :: i in ids ==> i < unused
  {
    if ids == {} {
      unused := 0;
    } else {
      var i :| i in ids;
      var above := FreshId(ids - {i});
      unused := if above <= i then i + 1 else above;
      assert forall j :: j in ids ==> j == i || j in ids - {i};
    }
  }
}
