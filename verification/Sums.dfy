/** Sums of natural numbers over finite sets. */
module Sums {

  ghost function SumOver<T(!new)>(s: set<T>, f: T -> nat): nat {
    if s == {} then 0
    else
      var x :| x in s;
      f(x) + SumOver(s - {x}, f)
  }

  lemma {:induction false} SumSplit<T(!new)>(s: set<T>, f: T -> nat, x: T)
    requires x in s
    ensures SumOver(s, f) == f(x) + SumOver(s - {x}, f)
  {
    var y :| y in s && SumOver(s, f) == f(y) + SumOver(s - {y}, f);
    if y != x {
      SumSplit(s - {y}, f, x);
      SumSplit(s - {x}, f, y);
      assert s - {x} - {y} == s - {y} - {x};
    }
  }

  lemma {:induction false} SumSame<T(!new)>(s: set<T>, f: T -> nat, g: T -> nat)
    requires forall x :: x in s ==> f(x) == g(x)
    ensures SumOver(s, f) == SumOver(s, g)
  {
    if s != {} {
      var x :| x in s;
      SumSplit(s, f, x);
      SumSplit(s, g, x);
      SumSame(s - {x}, f, g);
    }
  }

  lemma SumNothing<T(!new)>(f: T -> nat)
    ensures SumOver({}, f) == 0
  {
  }

  /** Elements that add nothing may be left out. */
  lemma {:induction false} SumWiden<T(!new)>(s: set<T>, wide: set<T>, f: T -> nat)
    requires s <= wide && forall x :: x in wide - s ==> f(x) == 0
    ensures SumOver(wide, f) == SumOver(s, f)
  {
    if wide - s != {} {
      var x :| x in wide - s;
      SumSplit(wide, f, x);
      SumWiden(s, wide - {x}, f);
    } else {
      assert forall x :: x in wide ==> x in wide - s || x in s;
      assert wide == s;
    }
  }

  lemma {:induction false} SumUnion<T(!new)>(a: set<T>, b: set<T>, f: T -> nat)
    requires a !! b
    ensures SumOver(a + b, f) == SumOver(a, f) + SumOver(b, f)
  {
    if a == {} {
      assert a + b == b;
    } else {
      var x :| x in a;
      SumSplit(a, f, x);
      SumSplit(a + b, f, x);
      assert a + b - {x} == (a - {x}) + b;
      SumUnion(a - {x}, b, f);
    }
  }

  /** Two pairs of functions with equal pointwise sums have equal total sums. */
  lemma {:induction false} SumBalance<T(!new)>(s: set<T>, f1: T -> nat, f2: T -> nat, g1: T -> nat, g2: T -> nat)
    requires forall x :: x in s ==> f1(x) + f2(x) == g1(x) + g2(x)
    ensures SumOver(s, f1) + SumOver(s, f2) == SumOver(s, g1) + SumOver(s, g2)
  {
    if s != {} {
      var x :| x in s;
      SumSplit(s, f1, x);
      SumSplit(s, f2, x);
      SumSplit(s, g1, x);
      SumSplit(s, g2, x);
      SumBalance(s - {x}, f1, f2, g1, g2);
    }
  }
}
