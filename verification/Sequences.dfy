/** Small helpers on lists. */
module Sequences {
  ghost predicate Distinct<T(!new)>(s: seq<T>) { forall i, j :: 0 <= i < j < |s| ==> s[i] != s[j] }

  /** The last n elements. */
  function Last<T>(s: seq<T>, n: nat): seq<T> { if |s| <= n then s else s[|s| - n..] }

  /** The elements that satisfy `keep`, in order. */
  function Filter<T(!new)>(s: seq<T>, keep: T -> bool): (r: seq<T>)
    ensures forall x :: x in r <==> x in s && keep(x)
  {
    if s == [] then [] else
      var last := s[|s| - 1];
      Filter(s[..|s| - 1], keep) + (if keep(last) then [last] else [])
  }

  lemma {:induction false} FilterShrinks<T(!new)>(s: seq<T>, keep: T -> bool)
    ensures |Filter(s, keep)| <= |s|
    ensures |Filter(s, keep)| == |s| <==> forall x :: x in s ==> keep(x)
    ensures (forall x :: x in s ==> keep(x)) ==> Filter(s, keep) == s
  {
    if s != [] {
      var init, last := s[..|s| - 1], s[|s| - 1];
      FilterShrinks(init, keep);
      assert s == init + [last];
      AllOfSnoc(init, last, keep);
    }
  }

  lemma AllOfSnoc<T(!new)>(init: seq<T>, last: T, keep: T -> bool)
    ensures (forall x :: x in init + [last] ==> keep(x)) <==> keep(last) && forall x :: x in init ==> keep(x)
  {
    assert last in init + [last];
    assert forall x :: x in init ==> x in init + [last];
  }

  lemma FilterNone<T(!new)>(s: seq<T>, keep: T -> bool)
    requires forall x :: x in s ==> !keep(x)
    ensures Filter(s, keep) == []
  {
    var r := Filter(s, keep);
    assert forall i :: 0 <= i < |r| ==> r[i] in r;
  }

  lemma FilterSnoc<T(!new)>(s: seq<T>, x: T, keep: T -> bool)
    ensures Filter(s + [x], keep) == Filter(s, keep) + (if keep(x) then [x] else [])
  {
    assert (s + [x])[..|s|] == s;
  }

  lemma {:induction false} FilterTwice<T(!new)>(s: seq<T>, keep: T -> bool)
    ensures Filter(Filter(s, keep), keep) == Filter(s, keep)
  {
    FilterShrinks(Filter(s, keep), keep);
  }

  lemma {:induction false} FilterLast<T(!new)>(s: seq<T>, init: seq<T>, last: T, keep: T -> bool)
    requires s == init + [last]
    ensures Filter(s, keep) == Filter(init, keep) + (if keep(last) then [last] else [])
  {
    assert s[..|s| - 1] == init;
  }

  lemma Regroup<T>(x: seq<T>, y: seq<T>, z: seq<T>)
    ensures x + y + z == x + (y + z)
  {
  }

  lemma {:induction false} FilterConcat<T(!new)>(a: seq<T>, b: seq<T>, keep: T -> bool)
    ensures Filter(a + b, keep) == Filter(a, keep) + Filter(b, keep)
  {
    if b == [] {
      assert a + b == a;
    } else {
      var init, last := b[..|b| - 1], b[|b| - 1];
      FilterConcat(a, init, keep);
      assert b == init + [last];
      Regroup(a, init, [last]);
      FilterLast(a + b, a + init, last, keep);
      FilterLast(b, init, last, keep);
      Regroup(Filter(a, keep), Filter(init, keep), if keep(last) then [last] else []);
    }
  }

  lemma FilterCut<T(!new)>(a: seq<T>, b: seq<T>, keep: T -> bool)
    requires forall i :: 0 <= i < |a| ==> !keep(a[i])
    requires forall i :: 0 <= i < |b| ==> keep(b[i])
    ensures Filter(a + b, keep) == b
  {
    FilterConcat(a, b, keep);
    FilterNone(a, keep);
    FilterShrinks(b, keep);
  }

  lemma {:induction false} SameFilter<T(!new)>(s: seq<T>, p: T -> bool, q: T -> bool)
    requires forall x :: p(x) == q(x)
    ensures Filter(s, p) == Filter(s, q)
  {
    if s != [] { SameFilter(s[..|s| - 1], p, q); }
  }
}
