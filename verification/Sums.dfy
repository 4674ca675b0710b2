/** Sums of integer sequences and of functions over finite sets. */
module Sums {
  function Sum(s: seq<int>): int {
    if s == [] then 0 else Sum(s[..|s| - 1]) + s[|s| - 1]
  }

  lemma SumAppend(s: seq<int>, x: int)
    ensures Sum(s + [x]) == Sum(s) + x
  {
    assert (s + [x])[..|s|] == s;
  }

  lemma {:induction false} SumUpdate(s: seq<int>, i: nat, x: int)
    requires i < |s|
    ensures Sum(s[i := x]) == Sum(s) - s[i] + x
  {
    var n := |s| - 1;
    if i == n {
      assert s[i := x][..n] == s[..n];
    } else {
      assert s[i := x][..n] == s[..n][i := x];
      SumUpdate(s[..n], i, x);
    }
  }

  /** The sum of f over a finite set. */
  ghost function SumOver<T(!new)>(xs: set<T>, f: T -> int): int {
    if xs == {} then 0 else var x :| x in xs; f(x) + SumOver(xs - {x}, f)
  }

  lemma {:induction false} SumOverAdds<T(!new)>(xs: set<T>, f: T -> int, g: T -> int, h: T -> int)
    requires forall x | x in xs :: h(x) == f(x) + g(x)
    ensures SumOver(xs, h) == SumOver(xs, f) + SumOver(xs, g)
  {
    if xs != {} {
      var x :| x in xs && SumOver(xs, f) == f(x) + SumOver(xs - {x}, f)
                       && SumOver(xs, g) == g(x) + SumOver(xs - {x}, g)
                       && SumOver(xs, h) == h(x) + SumOver(xs - {x}, h);
      SumOverAdds(xs - {x}, f, g, h);
    }
  }

  /** A function that is v at one member and zero elsewhere sums to v. */
  lemma {:induction false} SumOverPoint<T(!new)>(xs: set<T>, f: T -> int, a: T, v: int)
    requires forall x | x in xs :: f(x) == if x == a then v else 0
    ensures SumOver(xs, f) == if a in xs then v else 0
  {
    if xs != {} {
      var x :| x in xs && SumOver(xs, f) == f(x) + SumOver(xs - {x}, f);
      SumOverPoint(xs - {x}, f, a, v);
    }
  }

  lemma SumOverSame<T(!new)>(xs: set<T>, f: T -> int, g: T -> int)
    requires forall x | x in xs :: f(x) == g(x)
    ensures SumOver(xs, f) == SumOver(xs, g)
  {
    SumOverNull(xs, (x: T) => 0);
    SumOverAdds(xs, f, (x: T) => 0, g);
  }

  lemma {:induction false} SumOverNull<T(!new)>(xs: set<T>, f: T -> int)
    requires forall x | x in xs :: f(x) == 0
    ensures SumOver(xs, f) == 0
  {
    if xs != {} {
      var x :| x in xs && SumOver(xs, f) == f(x) + SumOver(xs - {x}, f);
      SumOverNull(xs - {x}, f);
    }
  }

  /** A member at which the function is zero may be dropped. */
  lemma SumOverDrop<T(!new)>(xs: set<T>, f: T -> int, a: T)
    requires f(a) == 0
    ensures SumOver(xs - {a}, f) == SumOver(xs, f)
  {
    if a in xs {
      SumOverTake(xs, f, a);
    } else {
      assert xs - {a} == xs;
    }
  }

  /** The sum does not depend on which member is taken first. */
  lemma {:induction false} SumOverTake<T(!new)>(xs: set<T>, f: T -> int, a: T)
    requires a in xs
    ensures SumOver(xs, f) == f(a) + SumOver(xs - {a}, f)
  {
    var x :| x in xs && SumOver(xs, f) == f(x) + SumOver(xs - {x}, f);
    if x != a {
      SumOverTake(xs - {x}, f, a);
      SumOverTake(xs - {a}, f, x);
      assert (xs - {x}) - {a} == (xs - {a}) - {x};
    }
  }
}
