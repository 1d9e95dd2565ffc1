/** Ordered iteration over a finite set of keys: what a sorted map's range scan yields. */
module Sorting {
  ghost predicate TotalOrder<T(!new)>(leq: (T, T) -> bool) {
    && (forall a, b :: leq(a, b) || leq(b, a))
    && (forall a, b :: leq(a, b) && leq(b, a) ==> a == b)
    && (forall a, b, c :: leq(a, b) && leq(b, c) ==> leq(a, c))
  }

  predicate IsMin<T(==)>(leq: (T, T) -> bool, s: set<T>, m: T) {
    m in s && forall x :: x in s ==> leq(m, x)
  }

  predicate NoDuplicates<T(==)>(q: seq<T>) {
    forall i, j :: 0 <= i < j < |q| ==> q[i] != q[j]
  }

  predicate Ordered<T>(leq: (T, T) -> bool, q: seq<T>) {
    forall i, j :: 0 <= i < j < |q| ==> leq(q[i], q[j])
  }

  lemma MinExists<T(!new)>(leq: (T, T) -> bool, s: set<T>)
    requires TotalOrder(leq) && s != {}
    ensures exists m :: IsMin(leq, s, m)
    decreases |s|
  {
    var x :| x in s;
    var rest := s - {x};
    if rest == {} {
      assert s == {x};
      assert IsMin(leq, s, x);
    } else {
      MinExists(leq, rest);
      var m :| IsMin(leq, rest, m);
      var least := if leq(x, m) then x else m;
      forall y | y in s ensures leq(least, y) {
        if y != x { assert y in rest; }
      }
      assert IsMin(leq, s, least);
    }
  }

  /** The elements of `s` in ascending order. */
  function Sort<T(==, !new)>(leq: (T, T) -> bool, s: set<T>): (q: seq<T>)
    requires TotalOrder(leq)
    ensures forall x :: x in q <==> x in s
    ensures |q| == |s| && NoDuplicates(q) && Ordered(leq, q)
    decreases |s|
  {
    if s == {} then []
    else
      MinExists(leq, s);
      var m :| IsMin(leq, s, m);
      var rest := Sort(leq, s - {m});
      assert forall x :: x in [m] + rest <==> x == m || x in rest;
      [m] + rest
  }

  predicate IntLeq(a: int, b: int) { a <= b }

  function SortInts(s: set<int>): (q: seq<int>)
    ensures forall x :: x in q <==> x in s
    ensures forall i, j :: 0 <= i < j < |q| ==> q[i] < q[j]
  {
    assert TotalOrder(IntLeq);
    var q := Sort(IntLeq, s);
    assert forall i, j :: 0 <= i < j < |q| ==> IntLeq(q[i], q[j]) && q[i] != q[j];
    q
  }
}
