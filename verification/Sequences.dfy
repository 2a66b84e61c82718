// Sets and dictionaries listed in some order.

module Sequences {
  predicate Distinct<T(==)>(l: seq<T>) {
    forall i, j :: 0 <= i < j < |l| ==> l[i] != l[j]
  }

  method Listed<T(==)>(s: set<T>) returns (l: seq<T>)
    ensures Distinct(l) && forall x :: x in l <==> x in s
  {
    l := [];
    var todo := s;
    while todo != {}
      invariant todo <= s && Distinct(l)
      invariant forall x :: x in l <==> x in s - todo
    {
      var x :| x in todo;
      assert x !in l;
      l := l + [x];
      todo := todo - {x};
    }
  }

  lemma DistinctSum<T>(a: seq<T>, b: seq<T>)
    requires Distinct(a) && Distinct(b)
    requires forall x :: !(x in a && x in b)
    ensures Distinct(a + b)
  {
    forall i, j | 0 <= i < j < |a + b|
      ensures (a + b)[i] != (a + b)[j]
    {
      if i < |a| <= j {
        assert a[i] in a && b[j - |a|] in b;
      }
    }
  }
}
