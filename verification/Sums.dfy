/** Finite sums over sets of table keys: the ledger statements are sums over the
    rows of a table, and every proof changes one row at a time. */
module Sums {

  ghost function Sum<T(!new)>(s: set<T>, f: T -> int): int
    decreases |s|
  {
    if s == {} then 0
    else
      var x :| x in s;
      f(x) + Sum(s - {x}, f)
  }

  lemma {:induction false} SumRemove<T(!new)>(s: set<T>, f: T -> int, x: T)
    requires x in s
    ensures Sum(s, f) == f(x) + Sum(s - {x}, f)
    decreases |s|
  {
    var y :| y in s && Sum(s, f) == f(y) + Sum(s - {y}, f);
    if y != x {
      SumRemove(s - {y}, f, x);
      SumRemove(s - {x}, f, y);
      assert s - {y} - {x} == s - {x} - {y};
    }
  }

  lemma SumInsert<T(!new)>(s: set<T>, f: T -> int, x: T)
    requires x !in s
    ensures Sum(s + {x}, f) == Sum(s, f) + f(x)
  {
    SumRemove(s + {x}, f, x);
    assert s + {x} - {x} == s;
  }

  lemma {:induction false} SumCong<T(!new)>(s: set<T>, f: T -> int, g: T -> int)
    requires forall x | x in s :: f(x) == g(x)
    ensures Sum(s, f) == Sum(s, g)
    decreases |s|
  {
    if s != {} {
      var x :| x in s;
      SumRemove(s, f, x);
      SumRemove(s, g, x);
      SumCong(s - {x}, f, g);
    }
  }

  /** One row changes: the sum moves by the difference of that row. */
  lemma SumUpdate<T(!new)>(s: set<T>, f: T -> int, g: T -> int, x: T)
    requires x in s
    requires forall y | y in s && y != x :: f(y) == g(y)
    ensures Sum(s, g) == Sum(s, f) + g(x) - f(x)
  {
    SumRemove(s, f, x);
    SumRemove(s, g, x);
    SumCong(s - {x}, f, g);
  }

  /** Two rows change. */
  lemma SumUpdateTwo<T(!new)>(s: set<T>, f: T -> int, g: T -> int, x: T, y: T)
    requires x in s && y in s && x != y
    requires forall z | z in s && z != x && z != y :: f(z) == g(z)
    ensures Sum(s, g) == Sum(s, f) + g(x) - f(x) + g(y) - f(y)
  {
    SumRemove(s, f, x);
    SumRemove(s, g, x);
    SumUpdate(s - {x}, f, g, y);
  }

  lemma {:induction false} SumAdd<T(!new)>(s: set<T>, f: T -> int, g: T -> int, h: T -> int)
    requires forall x | x in s :: h(x) == f(x) + g(x)
    ensures Sum(s, h) == Sum(s, f) + Sum(s, g)
    decreases |s|
  {
    if s != {} {
      var x :| x in s;
      SumRemove(s, f, x);
      SumRemove(s, g, x);
      SumRemove(s, h, x);
      SumAdd(s - {x}, f, g, h);
    }
  }

  lemma {:induction false} SumZero<T(!new)>(s: set<T>, f: T -> int)
    requires forall x | x in s :: f(x) == 0
    ensures Sum(s, f) == 0
    decreases |s|
  {
    if s != {} {
      var x :| x in s;
      SumRemove(s, f, x);
      SumZero(s - {x}, f);
    }
  }

  /** A sum of non-negative terms is non-negative and bounds each of its terms. */
  lemma {:induction false} SumNonNegative<T(!new)>(s: set<T>, f: T -> int)
    requires forall x | x in s :: f(x) >= 0
    ensures Sum(s, f) >= 0
    ensures forall x | x in s :: f(x) <= Sum(s, f)
    decreases |s|
  {
    forall x | x in s
      ensures 0 <= f(x) <= Sum(s, f)
    {
      SumRemove(s, f, x);
      SumNonNegative(s - {x}, f);
    }
  }

  lemma {:induction false} SumDisjoint<T(!new)>(s: set<T>, t: set<T>, f: T -> int)
    requires s !! t
    ensures Sum(s + t, f) == Sum(s, f) + Sum(t, f)
    decreases |t|
  {
    if t == {} {
      assert s + t == s;
    } else {
      var x :| x in t;
      SumRemove(s + t, f, x);
      SumRemove(t, f, x);
      assert s + t - {x} == s + (t - {x});
      SumDisjoint(s, t - {x}, f);
    }
  }

  /** A new row: the sum grows by it, when the other rows keep their terms. */
  lemma SumInserted<T(!new)>(s: set<T>, f: T -> int, g: T -> int, x: T)
    requires x !in s && forall y | y in s :: g(y) == f(y)
    ensures Sum(s + {x}, g) == Sum(s, f) + g(x)
  {
    SumInsert(s, g, x);
    SumCong(s, f, g);
  }

  lemma ScaleSplit(k: int, a: int, b: int)
    ensures k * a + k * b == k * (a + b)
  {
  }

  lemma {:induction false} SumScale<T(!new)>(s: set<T>, f: T -> int, g: T -> int, k: int)
    requires forall x | x in s :: g(x) == k * f(x)
    ensures Sum(s, g) == k * Sum(s, f)
    decreases |s|
  {
    if s != {} {
      var x :| x in s;
      SumRemove(s, f, x);
      SumRemove(s, g, x);
      SumScale(s - {x}, f, g, k);
      ScaleSplit(k, f(x), Sum(s - {x}, f));
      assert g(x) == k * f(x);
    }
  }
}
