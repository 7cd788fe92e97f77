/**
 Finite sums of reals over a set of names.
 */
module Sums {

  ghost function Sum<T(!new)>(s: set<T>, f: T -> real): real {
    if s == {} then 0.0 else
      var x :| x in s;
      f(x) + Sum(s - {x}, f)
  }

  /** Any element can be taken out first. */
  lemma {:induction false} Pick<T(!new)>(s: set<T>, f: T -> real, x: T)
    requires x in s
    ensures Sum(s, f) == f(x) + Sum(s - {x}, f)
    decreases s
  {
    var y :| y in s && Sum(s, f) == f(y) + Sum(s - {y}, f);
    if y != x {
      Pick(s - {y}, f, x);
      Pick(s - {x}, f, y);
      assert s - {y} - {x} == s - {x} - {y};
    }
  }

  lemma {:induction false} Same<T(!new)>(s: set<T>, f: T -> real, g: T -> real)
    requires forall x :: x in s ==> f(x) == g(x)
    ensures Sum(s, f) == Sum(s, g)
    decreases s
  {
    if s != {} {
      var x :| x in s;
      Pick(s, f, x);
      Pick(s, g, x);
      Same(s - {x}, f, g);
    }
  }

  lemma {:induction false} Plus<T(!new)>(s: set<T>, f: T -> real, g: T -> real, h: T -> real)
    requires forall x :: x in s ==> h(x) == f(x) + g(x)
    ensures Sum(s, h) == Sum(s, f) + Sum(s, g)
    decreases s
  {
    if s != {} {
      var x :| x in s;
      Pick(s, f, x);
      Pick(s, g, x);
      Pick(s, h, x);
      Plus(s - {x}, f, g, h);
    }
  }

  lemma Minus<T(!new)>(s: set<T>, f: T -> real, g: T -> real, h: T -> real)
    requires forall x :: x in s ==> h(x) == f(x) - g(x)
    ensures Sum(s, h) == Sum(s, f) - Sum(s, g)
  {
    Plus(s, h, g, f);
  }

  lemma {:induction false} Zero<T(!new)>(s: set<T>, f: T -> real)
    requires forall x :: x in s ==> f(x) == 0.0
    ensures Sum(s, f) == 0.0
    decreases s
  {
    if s != {} {
      var x :| x in s;
      Pick(s, f, x);
      Zero(s - {x}, f);
    }
  }

  lemma {:induction false} Union<T(!new)>(s: set<T>, t: set<T>, f: T -> real)
    requires s !! t
    ensures Sum(s + t, f) == Sum(s, f) + Sum(t, f)
    decreases t
  {
    if t == {} {
      assert s + t == s;
    } else {
      var x :| x in t;
      Pick(t, f, x);
      Union(s, t - {x}, f);
      assert s + (t - {x}) == s + t - {x};
      Pick(s + t, f, x);
    }
  }

  /** Names at which the summand vanishes may be left out. */
  lemma Restrict<T(!new)>(s: set<T>, t: set<T>, f: T -> real)
    requires s <= t && forall x :: x in t - s ==> f(x) == 0.0
    ensures Sum(t, f) == Sum(s, f)
  {
    assert s + (t - s) == t;
    Union(s, t - s, f);
    Zero(t - s, f);
  }

  lemma {:induction false} NonNegative<T(!new)>(s: set<T>, f: T -> real)
    requires forall x :: x in s ==> f(x) >= 0.0
    ensures Sum(s, f) >= 0.0
    decreases s
  {
    if s != {} {
      var x :| x in s;
      Pick(s, f, x);
      NonNegative(s - {x}, f);
    }
  }

  /** One positive summand among non-negative ones. */
  lemma Positive<T(!new)>(s: set<T>, f: T -> real, x: T)
    requires x in s && f(x) > 0.0 && forall y :: y in s ==> f(y) >= 0.0
    ensures Sum(s, f) > 0.0
  {
    Pick(s, f, x);
    NonNegative(s - {x}, f);
  }

  /** The triangle inequality, with a bound on each summand. */
  lemma {:induction false} Bounded<T(!new)>(s: set<T>, f: T -> real, g: T -> real)
    requires forall x :: x in s ==> 0.0 - g(x) <= f(x) <= g(x)
    ensures 0.0 - Sum(s, g) <= Sum(s, f) <= Sum(s, g)
    decreases s
  {
    if s != {} {
      var x :| x in s;
      Pick(s, f, x);
      Pick(s, g, x);
      Bounded(s - {x}, f, g);
    }
  }

  /** Two summands that differ at one name only. */
  lemma Change<T(!new)>(s: set<T>, f: T -> real, g: T -> real, x: T)
    requires x in s && forall y :: y in s && y != x ==> f(y) == g(y)
    ensures Sum(s, g) == Sum(s, f) + (g(x) - f(x))
  {
    Pick(s, f, x);
    Pick(s, g, x);
    Same(s - {x}, f, g);
  }
}
