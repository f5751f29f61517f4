/** `sorted()` over strings: code-point order, and the one sorted listing of a finite set. */
module Ordering {
  predicate AtMost(a: string, b: string) {
    || a == []
    || (b != [] && (a[0] < b[0] || (a[0] == b[0] && AtMost(a[1..], b[1..]))))
  }

  /** Code-point order: a prefix, or the smaller character at the first difference. */
  lemma {:induction false} AtMostExactly(a: string, b: string)
    ensures AtMost(a, b) <==>
      a <= b || exists i: nat :: i < |a| && i < |b| && a[..i] == b[..i] && a[i] < b[i]
  {
    if a != [] && b != [] && a[0] == b[0] {
      AtMostExactly(a[1..], b[1..]);
      assert a == [a[0]] + a[1..] && b == [b[0]] + b[1..];
      if i: nat :| i < |a| && i < |b| && a[..i] == b[..i] && a[i] < b[i] {
        assert a[1..][..i - 1] == a[..i][1..] == b[..i][1..] == b[1..][..i - 1];
        assert a[1..][i - 1] < b[1..][i - 1];
      }
      if i: nat :| i < |a[1..]| && i < |b[1..]| && a[1..][..i] == b[1..][..i] && a[1..][i] < b[1..][i] {
        assert a[..i + 1] == [a[0]] + a[1..][..i] && b[..i + 1] == [b[0]] + b[1..][..i];
        assert a[i + 1] < b[i + 1];
      }
    } else if a != [] && b != [] && a[0] < b[0] {
      assert a[..0] == b[..0];
    }
  }

  lemma {:induction false} AtMostTotal(a: string, b: string)
    ensures AtMost(a, b) || AtMost(b, a)
  {
    if a != [] && b != [] && a[0] == b[0] {
      AtMostTotal(a[1..], b[1..]);
    }
  }

  lemma {:induction false} AtMostAntisymmetric(a: string, b: string)
    requires AtMost(a, b) && AtMost(b, a)
    ensures a == b
  {
    if a != [] {
      AtMostAntisymmetric(a[1..], b[1..]);
      assert a == [a[0]] + a[1..] && b == [b[0]] + b[1..];
    }
  }

  lemma {:induction false} AtMostTransitive(a: string, b: string, c: string)
    requires AtMost(a, b) && AtMost(b, c)
    ensures AtMost(a, c)
  {
    if a != [] && a[0] == b[0] == c[0] {
      AtMostTransitive(a[1..], b[1..], c[1..]);
    }
  }

  predicate IsLeast(x: string, s: set<string>) {
    x in s && forall y | y in s :: AtMost(x, y)
  }

  lemma {:induction false} LeastExists(s: set<string>)
    requires s != {}
    ensures exists x :: IsLeast(x, s)
    decreases |s|
  {
    var a :| a in s;
    if s == {a} {
      AtMostTotal(a, a);
      assert IsLeast(a, s);
    } else {
      var rest := s - {a};
      assert rest != {} && |rest| < |s|;
      LeastExists(rest);
      var b :| IsLeast(b, rest);
      AtMostTotal(a, b);
      AtMostTotal(a, a);
      var x := if AtMost(a, b) then a else b;
      forall y | y in s ensures AtMost(x, y) {
        if x == a && y != a {
          AtMostTransitive(a, b, y);
        }
      }
      assert IsLeast(x, s);
    }
  }

  lemma LeastUnique(s: set<string>)
    ensures forall x, y :: IsLeast(x, s) && IsLeast(y, s) ==> x == y
  {
    forall x, y | IsLeast(x, s) && IsLeast(y, s) ensures x == y {
      AtMostAntisymmetric(x, y);
    }
  }

  /** The least element; it is unique, so the choice is a function of the set. */
  function Least(s: set<string>): (x: string)
    requires s != {}
    ensures IsLeast(x, s)
  {
    LeastExists(s);
    LeastUnique(s);
    var x :| x in s && IsLeast(x, s);
    x
  }

  predicate Ascending(s: seq<string>) {
    forall i, j | 0 <= i < j < |s| :: AtMost(s[i], s[j]) && s[i] != s[j]
  }

  /** `sorted(s)`: the least element first, then the rest. */
  function Sorted(s: set<string>): seq<string>
    decreases |s|
  {
    if s == {} then [] else
      var x := Least(s);
      assert s == (s - {x}) + {x} && |s - {x}| < |s|;
      [x] + Sorted(s - {x})
  }

  lemma {:induction false} SortedHasElements(s: set<string>)
    ensures forall x :: x in Sorted(s) <==> x in s
    decreases |s|
  {
    if s != {} {
      hide AtMost;
      var x := Least(s);
      assert s == (s - {x}) + {x} && |s - {x}| < |s|;
      SortedHasElements(s - {x});
    }
  }

  lemma {:induction false} SortedHasOrder(s: set<string>)
    ensures Ascending(Sorted(s)) && |Sorted(s)| == |s|
    decreases |s|
  {
    if s != {} {
      hide AtMost;
      var x := Least(s);
      var rest := s - {x};
      assert s == rest + {x} && |rest| < |s|;
      SortedHasOrder(rest);
      SortedHasElements(rest);
      forall j | 0 <= j < |Sorted(rest)| ensures AtMost(x, Sorted(rest)[j]) && x != Sorted(rest)[j] {
        assert Sorted(rest)[j] in rest;
      }
    }
  }

  /** `sorted` lists exactly the elements, each once, in ascending order. */
  lemma SortedAscends(s: set<string>)
    ensures Ascending(Sorted(s)) && |Sorted(s)| == |s|
    ensures forall x :: x in Sorted(s) <==> x in s
  {
    hide Ascending, Sorted;
    SortedHasOrder(s);
    SortedHasElements(s);
  }
}
