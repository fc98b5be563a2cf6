// Sorting a set by a strict total order: what Python's `sorted` makes of distinct keys.
module Orders {

  ghost predicate StrictTotal<T(!new)>(less: (T, T) -> bool) {
    && (forall a :: !less(a, a))
    && (forall a, b :: a == b || less(a, b) || less(b, a))
    && (forall a, b, c :: less(a, b) && less(b, c) ==> less(a, c))
  }

  ghost predicate Ascending<T>(q: seq<T>, less: (T, T) -> bool) {
    forall i, j :: 0 <= i < j < |q| ==> less(q[i], q[j])
  }

  ghost predicate Least<T>(m: T, s: set<T>, less: (T, T) -> bool) {
    m in s && forall k :: k in s && k != m ==> less(m, k)
  }

  lemma {:induction false} LeastExists<T(!new)>(s: set<T>, less: (T, T) -> bool)
    requires s != {} && StrictTotal(less)
    ensures exists m :: Least(m, s, less)
    decreases s
  {
    var k :| k in s;
    if s == {k} {
      assert Least(k, s, less);
    } else {
      LeastExists(s - {k}, less);
      var m :| Least(m, s - {k}, less);
      var least := if less(k, m) then k else m;
      forall x | x in s && x != least
        ensures less(least, x)
      {
        assert x == k || x == m || less(m, x);
      }
      assert Least(least, s, less);
    }
  }

  lemma LeastUnique<T(!new)>(m: T, n: T, s: set<T>, less: (T, T) -> bool)
    requires StrictTotal(less) && Least(m, s, less) && Least(n, s, less)
    ensures m == n
  {
  }

  ghost function Smallest<T(!new)>(s: set<T>, less: (T, T) -> bool): (m: T)
    requires s != {} && StrictTotal(less)
    ensures Least(m, s, less)
  {
    LeastExists(s, less);
    var m :| Least(m, s, less);
    m
  }

  /** The elements of a set in order: each once, and ascending. */
  ghost function Sorted<T(!new)>(s: set<T>, less: (T, T) -> bool): (q: seq<T>)
    requires StrictTotal(less)
    ensures |q| == |s| && forall k :: k in q <==> k in s
    ensures Ascending(q, less)
    decreases s
  {
    if s == {} then []
    else
      var m := Smallest(s, less);
      [m] + Sorted(s - {m}, less)
  }

  /** There is only one way to put a set in order. */
  lemma {:induction false} SortedUnique<T(!new)>(q: seq<T>, s: set<T>, less: (T, T) -> bool)
    requires StrictTotal(less) && Ascending(q, less) && forall k :: k in q <==> k in s
    ensures q == Sorted(s, less)
  {
    if q == [] {
      assert s == {};
    } else {
      assert q[0] in s;
      var m := Smallest(s, less);
      assert m in q;
      LeastUnique(q[0], m, s, less);
      assert q == [m] + q[1..];
      SortedUnique(q[1..], s - {m}, less);
    }
  }

  method LeastOf<T(!new,==)>(s: set<T>, less: (T, T) -> bool) returns (m: T)
    requires s != {} && StrictTotal(less)
    ensures Least(m, s, less)
  {
    m :| m in s;
    var rest := s - {m};
    while rest != {}
      invariant rest <= s && m in s && m !in rest
      invariant forall k :: k in s && k !in rest && k != m ==> less(m, k)
      decreases rest
    {
      var k :| k in rest;
      rest := rest - {k};
      if less(k, m) {
        m := k;
      }
    }
  }

  /** `sorted`, as a selection of the least element over and over. */
  method Sort<T(!new,==)>(s: set<T>, less: (T, T) -> bool) returns (q: seq<T>)
    requires StrictTotal(less)
    ensures q == Sorted(s, less)
  {
    hide Least, Ascending, StrictTotal, Sorted;
    q := [];
    var todo := s;
    while todo != {}
      invariant q + Sorted(todo, less) == Sorted(s, less)
      decreases todo
    {
      var m := LeastOf(todo, less);
      SortedStep(m, todo, less);
      q := q + [m];
      todo := todo - {m};
    }
    SortedNothing(less);
    assert q + [] == q;
  }

  lemma SortedNothing<T(!new)>(less: (T, T) -> bool)
    requires StrictTotal(less)
    ensures Sorted({}, less) == []
  {
  }

  lemma SortedStep<T(!new)>(m: T, s: set<T>, less: (T, T) -> bool)
    requires StrictTotal(less) && Least(m, s, less)
    ensures m in s && Sorted(s, less) == [m] + Sorted(s - {m}, less)
  {
    LeastUnique(m, Smallest(s, less), s, less);
  }
}
