/** Sorted enumerations of sets of row identifiers. SQL's ORDER BY and Go's
    sort.Slice over a map's values both compute the one sorted sequence of a set. */
module Sorting {

  /** A strict total order on the elements of `s`. */
  ghost predicate StrictTotal(s: set<nat>, less: (nat, nat) -> bool) {
    && (forall x | x in s :: !less(x, x))
    && (forall x, y | x in s && y in s && x != y :: less(x, y) || less(y, x))
    && (forall x, y, z | x in s && y in s && z in s && less(x, y) && less(y, z) :: less(x, z))
  }

  ghost predicate Sorted(r: seq<nat>, less: (nat, nat) -> bool) {
    forall i, j | 0 <= i < j < |r| :: less(r[i], r[j])
  }

  function Elements(r: seq<nat>): (s: set<nat>)
    ensures forall i | 0 <= i < |r| :: r[i] in s
    ensures r != [] ==> r[0] in s
    ensures |r| == 1 ==> s == {r[0]}
  {
    set i | 0 <= i < |r| :: r[i]
  }

  ghost predicate IsSortOf(r: seq<nat>, s: set<nat>, less: (nat, nat) -> bool) {
    && Elements(r) == s
    && Sorted(r, less)
  }

  lemma {:induction false} LeastExists(s: set<nat>, less: (nat, nat) -> bool) returns (m: nat)
    requires s != {} && StrictTotal(s, less)
    ensures m in s && forall x | x in s && x != m :: less(m, x)
    decreases |s|
  {
    var y :| y in s;
    if s <= {y} {
      m := y;
    } else {
      var k := LeastExists(s - {y}, less);
      m := if less(y, k) then y else k;
    }
  }

  /** The sorted sequence of `s`. */
  ghost function Sort(s: set<nat>, less: (nat, nat) -> bool): (r: seq<nat>)
    requires StrictTotal(s, less)
    ensures IsSortOf(r, s, less)
    decreases |s|
  {
    if s == {} then []
    else
      var m := LeastOf(s, less);
      var rest := Sort(s - {m}, less);
      ConsSorts(m, rest, s - {m}, less);
      [m] + rest
  }

  ghost function LeastOf(s: set<nat>, less: (nat, nat) -> bool): (m: nat)
    requires s != {} && StrictTotal(s, less)
    ensures m in s && forall x | x in s && x != m :: less(m, x)
  {
    assert exists m :: m in s && forall x | x in s && x != m :: less(m, x) by {
      var m := LeastExists(s, less);
    }
    var m :| m in s && forall x | x in s && x != m :: less(m, x);
    m
  }

  lemma ConsSorts(m: nat, rest: seq<nat>, s: set<nat>, less: (nat, nat) -> bool)
    requires IsSortOf(rest, s, less)
    requires forall x | x in s :: less(m, x)
    ensures IsSortOf([m] + rest, {m} + s, less)
  {
    ElementsConcat([m], rest);
  }

  lemma ElementsConcat(a: seq<nat>, b: seq<nat>)
    ensures Elements(a + b) == Elements(a) + Elements(b)
  {
    forall x | x in Elements(a) + Elements(b)
      ensures x in Elements(a + b)
    {
      if x in Elements(a) {
        var i :| 0 <= i < |a| && a[i] == x;
        assert (a + b)[i] == x;
      } else {
        var i :| 0 <= i < |b| && b[i] == x;
        assert (a + b)[|a| + i] == x;
      }
    }
  }

  lemma SortedDistinct(r: seq<nat>, s: set<nat>, less: (nat, nat) -> bool)
    requires StrictTotal(s, less) && IsSortOf(r, s, less)
    ensures forall i, j | 0 <= i < j < |r| :: r[i] != r[j]
    ensures forall i | 0 <= i < |r| :: r[i] in s
  {
    forall i | 0 <= i < |r| ensures r[i] in s {
      assert r[i] in Elements(r);
    }
  }

  /** The sorted sequence of a set is unique, so no enumeration order of a map shows. */
  lemma {:induction false} SortUnique(a: seq<nat>, b: seq<nat>, s: set<nat>, less: (nat, nat) -> bool)
    requires StrictTotal(s, less) && IsSortOf(a, s, less) && IsSortOf(b, s, less)
    ensures a == b
    decreases |s|
  {
    SortedDistinct(a, s, less);
    SortedDistinct(b, s, less);
    if s != {} {
      HeadIsLeast(a, s, less);
      HeadIsLeast(b, s, less);
      TailSorts(a, s, less);
      TailSorts(b, s, less);
      SortUnique(a[1..], b[1..], s - {a[0]}, less);
      assert a == [a[0]] + a[1..] && b == [b[0]] + b[1..];
    }
  }

  lemma HeadIsLeast(r: seq<nat>, s: set<nat>, less: (nat, nat) -> bool)
    requires StrictTotal(s, less) && IsSortOf(r, s, less) && s != {}
    ensures r != [] && r[0] in s
    ensures forall x | x in s && x != r[0] :: less(r[0], x)
  {
    var x :| x in s;
    assert x in Elements(r);
    forall x | x in s && x != r[0] ensures less(r[0], x) {
      assert x in Elements(r);
      var i :| 0 <= i < |r| && r[i] == x;
    }
  }

  lemma TailSorts(a: seq<nat>, s: set<nat>, less: (nat, nat) -> bool)
    requires StrictTotal(s, less) && IsSortOf(a, s, less) && a != []
    ensures IsSortOf(a[1..], s - {a[0]}, less)
  {
    SortedDistinct(a, s, less);
    ElementsConcat([a[0]], a[1..]);
    assert a == [a[0]] + a[1..];
    assert a[0] !in Elements(a[1..]);
  }

  /** Puts `x` into its place in a sorted sequence. */
  method Insert(r: seq<nat>, x: nat, less: (nat, nat) -> bool, ghost s: set<nat>) returns (r': seq<nat>)
    requires x !in s && StrictTotal(s + {x}, less) && IsSortOf(r, s, less)
    ensures IsSortOf(r', s + {x}, less)
  {
    var i := 0;
    while i < |r| && less(r[i], x)
      invariant 0 <= i <= |r|
      invariant forall j | 0 <= j < i :: less(r[j], x)
    {
      i := i + 1;
    }
    r' := r[..i] + [x] + r[i..];
    InsertSorts(r, i, x, less, s);
  }

  lemma InsertSorts(r: seq<nat>, i: nat, x: nat, less: (nat, nat) -> bool, s: set<nat>)
    requires x !in s && StrictTotal(s + {x}, less) && IsSortOf(r, s, less) && i <= |r|
    requires forall j | 0 <= j < i :: less(r[j], x)
    requires i < |r| ==> !less(r[i], x)
    ensures IsSortOf(r[..i] + [x] + r[i..], s + {x}, less)
  {
    assert Sorted(r[..i] + [x] + r[i..], less) by { InsertKeepsOrder(r, i, x, less, s); }
    assert Elements(r[..i] + [x] + r[i..]) == s + {x} by {
      assert r[..i] + r[i..] == r;
      ElementsConcat(r[..i], r[i..]);
      ElementsConcat(r[..i], [x]);
      ElementsConcat(r[..i] + [x], r[i..]);
    }
  }

  lemma InsertKeepsOrder(r: seq<nat>, i: nat, x: nat, less: (nat, nat) -> bool, s: set<nat>)
    requires x !in s && StrictTotal(s + {x}, less) && IsSortOf(r, s, less) && i <= |r|
    requires forall j | 0 <= j < i :: less(r[j], x)
    requires i < |r| ==> !less(r[i], x)
    ensures Sorted(r[..i] + [x] + r[i..], less)
  {
    assert forall j | 0 <= j < |r| :: r[j] in s;
    if i < |r| {
      assert less(x, r[i]);
      assert forall j | i <= j < |r| :: less(x, r[j]);
    }
  }

  /** Sorts a set met in an arbitrary enumeration order. */
  method SortSet(s: set<nat>, less: (nat, nat) -> bool) returns (r: seq<nat>)
    requires StrictTotal(s, less)
    ensures r == Sort(s, less)
  {
    r := [];
    var rest := s;
    while rest != {}
      invariant rest <= s
      invariant IsSortOf(r, s - rest, less)
      decreases |rest|
    {
      var x :| x in rest;
      assert s - rest + {x} == s - (rest - {x});
      r := Insert(r, x, less, s - rest);
      rest := rest - {x};
    }
    assert s - rest == s;
    SortUnique(r, Sort(s, less), s, less);
  }

  lemma ElementsAre(values: seq<nat>, s: set<nat>)
    requires forall x :: x in values <==> x in s
    ensures Elements(values) == s
  {
    forall x ensures x in Elements(values) <==> x in s {
      assert x in values <==> exists i :: 0 <= i < |values| && values[i] == x;
    }
  }

  /** Sorts the distinct elements of a slice. */
  method SortSlice(values: seq<nat>, ghost s: set<nat>, less: (nat, nat) -> bool) returns (r: seq<nat>)
    requires StrictTotal(s, less) && forall x :: x in values <==> x in s
    ensures r == Sort(s, less)
  {
    ElementsAre(values, s);
    r := SortSet(Elements(values), less);
  }
}
