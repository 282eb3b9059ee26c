/** Python's `sorted(set(...))` over instants and indices. */
module SortedSets {

  predicate Increasing(ts: seq<int>) {
    forall i, j :: 0 <= i < j < |ts| ==> ts[i] < ts[j]
  }

  predicate IsLeast(m: int, s: set<int>) {
    m in s && forall x :: x in s ==> m <= x
  }

  lemma NotEmpty(s: set<int>)
    ensures s == {} || exists y :: y in s
  {
    if forall y :: y !in s {
      assert s == {};
    }
  }

  lemma {:induction false} HasLeast(s: set<int>)
    requires s != {}
    ensures exists m :: IsLeast(m, s)
  {
    NotEmpty(s);
    var y :| y in s;
    if s == {y} {
      assert IsLeast(y, s);
    } else {
      HasLeast(s - {y});
      var m :| IsLeast(m, s - {y});
      assert s == (s - {y}) + {y};
      assert IsLeast(if m <= y then m else y, s);
    }
  }

  function Sorted(s: set<int>): seq<int> {
    if s == {} then []
    else
      HasLeast(s);
      var m :| IsLeast(m, s);
      [m] + Sorted(s - {m})
  }

  lemma {:induction false} SortedIsSorted(s: set<int>)
    ensures Increasing(Sorted(s)) && (forall t :: t in Sorted(s) <==> t in s)
  {
    if s != {} {
      HasLeast(s);
      var m :| IsLeast(m, s) && Sorted(s) == [m] + Sorted(s - {m});
      SortedIsSorted(s - {m});
      var rest := Sorted(s - {m});
      forall i, j | 0 <= i < j < |Sorted(s)| ensures Sorted(s)[i] < Sorted(s)[j] {
        assert Sorted(s)[j] == rest[j - 1] && rest[j - 1] in rest;
      }
    }
  }

  lemma TakeAll<T>(s: seq<T>)
    ensures s[..|s|] == s
  {}

  lemma LeastFirst(a: seq<int>, x: int)
    requires Increasing(a) && x in a
    ensures a[0] <= x
  {}

  lemma SameHead(a: seq<int>, b: seq<int>)
    requires Increasing(a) && Increasing(b) && a != [] && b != []
    requires forall t :: t in a <==> t in b
    ensures a[0] == b[0]
  {
    assert a[0] in a && b[0] in b;
    LeastFirst(a, b[0]);
    LeastFirst(b, a[0]);
  }

  lemma InTail(a: seq<int>, t: int)
    requires Increasing(a) && a != []
    ensures t in a[1..] <==> t in a && t != a[0]
  {
    assert a == [a[0]] + a[1..];
    if t in a[1..] {
      var i :| 0 <= i < |a[1..]| && a[1..][i] == t;
      assert a[i + 1] == t;
    }
  }

  /** A set has only one increasing listing. */
  lemma {:induction false} IncreasingIsUnique(a: seq<int>, b: seq<int>)
    requires Increasing(a) && Increasing(b) && forall t :: t in a <==> t in b
    ensures a == b
  {
    assert a == [] || a[0] in a;
    assert b == [] || b[0] in b;
    if a != [] && b != [] {
      SameHead(a, b);
      forall t ensures t in a[1..] <==> t in b[1..] {
        InTail(a, t);
        InTail(b, t);
      }
      IncreasingIsUnique(a[1..], b[1..]);
      assert a == [a[0]] + a[1..] && b == [b[0]] + b[1..];
    }
  }

  lemma SortedIs(s: set<int>, ts: seq<int>)
    requires Increasing(ts) && forall t :: t in ts <==> t in s
    ensures Sorted(s) == ts
  {
    SortedIsSorted(s);
    IncreasingIsUnique(Sorted(s), ts);
  }
}
