/** Lexicographic order on strings: the order in which ordered maps are iterated
    and in which file names are sorted. */
module Lex {

  predicate Less(a: string, b: string) {
    if b == "" then false
    else if a == "" then true
    else a[0] < b[0] || (a[0] == b[0] && Less(a[1..], b[1..]))
  }

  lemma {:induction false} Irreflexive(a: string)
    ensures !Less(a, a)
  {
    if a != "" { Irreflexive(a[1..]); }
  }

  lemma {:induction false} Transitive(a: string, b: string, c: string)
    requires Less(a, b) && Less(b, c)
    ensures Less(a, c)
  {
    if a != "" && a[0] == b[0] == c[0] { Transitive(a[1..], b[1..], c[1..]); }
  }

  lemma {:induction false} Total(a: string, b: string)
    ensures a == b || Less(a, b) || Less(b, a)
  {
    if a != "" && b != "" && a[0] == b[0] {
      Total(a[1..], b[1..]);
      assert a == [a[0]] + a[1..] && b == [b[0]] + b[1..];
    }
  }

  predicate IsMin(s: set<string>, m: string) {
    m in s && forall x :: x in s && x != m ==> Less(m, x)
  }

  lemma {:induction false} MinExists(s: set<string>)
    requires s != {}
    ensures exists m :: IsMin(s, m)
    decreases |s|
  {
    var a :| a in s;
    var rest := s - {a};
    if rest == {} {
      assert s == {a};
      assert IsMin(s, a);
    } else {
      MinExists(rest);
      var b :| IsMin(rest, b);
      Total(a, b);
      var m := if Less(a, b) then a else b;
      forall x | x in s && x != m
        ensures Less(m, x)
      {
        if m == a && x != b { Transitive(a, b, x); }
      }
      assert IsMin(s, m);
    }
  }

  lemma MinUnique(s: set<string>, m: string, n: string)
    requires IsMin(s, m) && IsMin(s, n)
    ensures m == n
  {
    if m != n {
      Transitive(m, n, m);
      Irreflexive(m);
    }
  }

  function Min(s: set<string>): (m: string)
    requires s != {}
    ensures IsMin(s, m)
  {
    MinExists(s);
    assert forall m, n :: IsMin(s, m) && IsMin(s, n) ==> m == n by {
      forall m, n | IsMin(s, m) && IsMin(s, n) ensures m == n { MinUnique(s, m, n); }
    }
    var m :| IsMin(s, m);
    m
  }

  /** The elements of a set, smallest first. */
  function Ascending(s: set<string>): (r: seq<string>)
    ensures |r| == |s|
    ensures forall x :: x in r <==> x in s
    decreases |s|
  {
    if s == {} then [] else
      var m := Min(s);
      [m] + Ascending(s - {m})
  }

  ghost predicate StrictlyAscending(r: seq<string>) {
    forall i, j :: 0 <= i < j < |r| ==> Less(r[i], r[j])
  }

  lemma {:induction false} AscendingIsSorted(s: set<string>)
    ensures StrictlyAscending(Ascending(s))
    decreases |s|
  {
    if s != {} {
      var m := Min(s);
      var rest := Ascending(s - {m});
      AscendingIsSorted(s - {m});
      PrependKeepsSorted(m, rest);
    }
  }

  lemma PrependKeepsSorted(m: string, rest: seq<string>)
    requires StrictlyAscending(rest)
    requires forall x :: x in rest ==> Less(m, x)
    ensures StrictlyAscending([m] + rest)
  {
    var r := [m] + rest;
    forall i, j | 0 <= i < j < |r|
      ensures Less(r[i], r[j])
    {
      assert r[j] == rest[j - 1] && rest[j - 1] in rest;
    }
  }

  /** The lists kept under the keys of `keys`, concatenated in key order. */
  function Gather<T>(keys: set<string>, lists: map<string, seq<T>>): (r: seq<T>)
    requires keys <= lists.Keys
    decreases |keys|
  {
    if keys == {} then [] else
      var m := Min(keys);
      lists[m] + Gather(keys - {m}, lists)
  }

  lemma GatherFirst<T>(keys: set<string>, lists: map<string, seq<T>>)
    requires keys != {} && keys <= lists.Keys
    ensures Gather(keys, lists) == lists[Min(keys)] + Gather(keys - {Min(keys)}, lists)
  {
  }

  /** Keys with an empty list do not show in the concatenation. */
  lemma {:induction false} GatherSkipsEmpty<T>(a: set<string>, b: set<string>, f: map<string, seq<T>>,
                                               g: map<string, seq<T>>)
    requires a <= f.Keys && b <= g.Keys && a <= b
    requires forall k :: k in a ==> f[k] == g[k]
    requires forall k :: k in b && k !in a ==> g[k] == []
    ensures Gather(a, f) == Gather(b, g)
    decreases |b|
  {
    if b == {} {
    } else {
      var m := Min(b);
      if m in a {
        MinUnique(a, m, Min(a));
        GatherSkipsEmpty(a - {m}, b - {m}, f, g);
      } else {
        GatherSkipsEmpty(a, b - {m}, f, g);
      }
    }
  }
}
