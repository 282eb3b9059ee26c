/** Python's `sorted` over the keys of a dictionary: strings compared character by character. */
module NameOrder {

  predicate Before(a: string, b: string) {
    a == "" || (b != "" && (a[0] < b[0] || (a[0] == b[0] && Before(a[1..], b[1..]))))
  }

  lemma {:induction false} OneIsBefore(a: string, b: string)
    ensures Before(a, b) || Before(b, a)
  {
    if a != "" && b != "" && a[0] == b[0] {
      OneIsBefore(a[1..], b[1..]);
    }
  }

  lemma {:induction false} BeforeBoth(a: string, b: string)
    requires Before(a, b) && Before(b, a)
    ensures a == b
  {
    if a != "" && b != "" {
      BeforeBoth(a[1..], b[1..]);
      assert a == [a[0]] + a[1..] && b == [b[0]] + b[1..];
    }
  }

  lemma {:induction false} BeforeChain(a: string, b: string, c: string)
    requires Before(a, b) && Before(b, c)
    ensures Before(a, c)
  {
    if a != "" && a[0] == b[0] && b[0] == c[0] {
      BeforeChain(a[1..], b[1..], c[1..]);
    }
  }

  predicate IsFirst(m: string, names: set<string>) {
    m in names && forall n :: n in names ==> Before(m, n)
  }

  lemma SomeName(names: set<string>)
    ensures names == {} || exists n :: n in names
  {
    if forall n :: n !in names {
      assert names == {};
    }
  }

  lemma {:induction false} HasFirst(names: set<string>)
    requires names != {}
    ensures exists m :: IsFirst(m, names)
  {
    SomeName(names);
    var x :| x in names;
    OneIsBefore(x, x);
    if names == {x} {
      assert IsFirst(x, names);
    } else {
      HasFirst(names - {x});
      var m :| IsFirst(m, names - {x});
      OneIsBefore(x, m);
      var least := if Before(x, m) then x else m;
      forall n | n in names ensures Before(least, n) {
        if n != x && Before(x, m) {
          BeforeChain(x, m, n);
        }
      }
      assert IsFirst(least, names);
    }
  }

  lemma FirstIsUnique(names: set<string>)
    ensures forall m, n :: IsFirst(m, names) && IsFirst(n, names) ==> m == n
  {
    forall m, n | IsFirst(m, names) && IsFirst(n, names) ensures m == n {
      BeforeBoth(m, n);
    }
  }

  function Sorted(names: set<string>): seq<string> {
    if names == {} then []
    else
      HasFirst(names);
      FirstIsUnique(names);
      var m :| IsFirst(m, names);
      [m] + Sorted(names - {m})
  }

  predicate InOrder(names: seq<string>) {
    forall i, j :: 0 <= i < j < |names| ==> Before(names[i], names[j]) && names[i] != names[j]
  }

  lemma {:induction false} SortedLists(names: set<string>)
    ensures forall n :: n in Sorted(names) <==> n in names
    ensures InOrder(Sorted(names))
  {
    if names != {} {
      HasFirst(names);
      FirstIsUnique(names);
      var m :| IsFirst(m, names) && Sorted(names) == [m] + Sorted(names - {m});
      SortedLists(names - {m});
      var rest := Sorted(names - {m});
      forall i, j | 0 <= i < j < |Sorted(names)|
        ensures Before(Sorted(names)[i], Sorted(names)[j]) && Sorted(names)[i] != Sorted(names)[j]
      {
        assert Sorted(names)[j] == rest[j - 1] && rest[j - 1] in rest;
        assert i > 0 ==> Sorted(names)[i] == rest[i - 1];
      }
    }
  }
}
