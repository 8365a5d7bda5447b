/** Stable sorting by a total preorder, as a value. */
module Sorting {
  import opened Sequences

  type Order<!T> = (T, T) -> bool

  ghost predicate Preorder<T(!new)>(leq: Order<T>) {
    && (forall a, b :: leq(a, b) || leq(b, a))
    && (forall a, b, c :: leq(a, b) && leq(b, c) ==> leq(a, c))
  }

  ghost predicate Ordered<T(!new)>(s: seq<T>, leq: Order<T>) {
    forall i, j :: 0 <= i < j < |s| ==> leq(s[i], s[j])
  }

  /** Behind everything that is not greater. */
  function Insert<T(!new)>(s: seq<T>, x: T, leq: Order<T>): (r: seq<T>)
    ensures |r| == |s| + 1 && forall y :: y in r <==> y == x || y in s
  {
    if s == [] || leq(s[|s| - 1], x) then s + [x]
    else
      var r := Insert(s[..|s| - 1], x, leq) + [s[|s| - 1]];
      assert s == s[..|s| - 1] + [s[|s| - 1]];
      r
  }

  function Sort<T(!new)>(s: seq<T>, leq: Order<T>): (r: seq<T>)
    ensures |r| == |s| && forall y :: y in r <==> y in s
  {
    if s == [] then []
    else
      assert s == s[..|s| - 1] + [s[|s| - 1]];
      Insert(Sort(s[..|s| - 1], leq), s[|s| - 1], leq)
  }

  lemma {:induction false} InsertKeepsOrder<T(!new)>(s: seq<T>, x: T, leq: Order<T>)
    requires Preorder(leq) && Ordered(s, leq)
    ensures Ordered(Insert(s, x, leq), leq)
  {
    if s == [] || leq(s[|s| - 1], x) {
      forall i | 0 <= i < |s| ensures leq(s[i], x) { assert i < |s| - 1 ==> leq(s[i], s[|s| - 1]); }
    } else {
      var init, last := s[..|s| - 1], s[|s| - 1];
      InsertKeepsOrder(init, x, leq);
      var r := Insert(init, x, leq);
      forall i | 0 <= i < |r| ensures leq(r[i], last) { assert r[i] in r; }
    }
  }

  lemma {:induction false} InsertKeepsDistinct<T(!new)>(s: seq<T>, x: T, leq: Order<T>)
    requires Distinct(s) && x !in s
    ensures Distinct(Insert(s, x, leq))
  {
    if s != [] && !leq(s[|s| - 1], x) {
      var init, last := s[..|s| - 1], s[|s| - 1];
      InsertKeepsDistinct(init, x, leq);
      var r := Insert(init, x, leq);
      forall i | 0 <= i < |r| ensures r[i] != last { assert r[i] in r; }
    }
  }

  /** The sorted list is in order and, like the original, free of repetitions. */
  lemma {:induction false} SortSorts<T(!new)>(s: seq<T>, leq: Order<T>)
    requires Preorder(leq)
    ensures Ordered(Sort(s, leq), leq)
    ensures Distinct(s) ==> Distinct(Sort(s, leq))
  {
    if s != [] {
      var init, last := s[..|s| - 1], s[|s| - 1];
      SortSorts(init, leq);
      InsertKeepsOrder(Sort(init, leq), last, leq);
      if Distinct(s) {
        assert Distinct(init) && last !in init;
        InsertKeepsDistinct(Sort(init, leq), last, leq);
      }
    }
  }
}
