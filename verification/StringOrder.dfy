// Strings in the order Python's `sorted` puts them: lexicographic by code point.
module StringOrder {
  import Orders

  predicate Less(a: string, b: string) {
    if b == [] then false
    else if a == [] then true
    else a[0] < b[0] || (a[0] == b[0] && Less(a[1..], b[1..]))
  }

  lemma {:induction false} LessTotal(a: string, b: string)
    ensures a == b || Less(a, b) || Less(b, a)
    ensures !(Less(a, b) && Less(b, a)) && !Less(a, a)
    decreases |a|
  {
    if a != [] {
      LessTotal(a[1..], a[1..]);
      if b != [] {
        LessTotal(a[1..], b[1..]);
        assert a == [a[0]] + a[1..] && b == [b[0]] + b[1..];
      }
    }
  }

  lemma {:induction false} LessTransitive(a: string, b: string, c: string)
    requires Less(a, b) && Less(b, c)
    ensures Less(a, c)
    decreases |a|
  {
    if a != [] && a[0] == b[0] == c[0] {
      LessTransitive(a[1..], b[1..], c[1..]);
    }
  }

  lemma LessStrictTotal()
    ensures Orders.StrictTotal(Less)
  {
    hide Less;
    forall a, b
      ensures a == b || Less(a, b) || Less(b, a)
      ensures !Less(a, a)
    {
      LessTotal(a, b);
    }
    forall a, b, c | Less(a, b) && Less(b, c)
      ensures Less(a, c)
    {
      LessTransitive(a, b, c);
    }
  }

  /** `sorted` of a set of strings. */
  ghost function Sorted(s: set<string>): (q: seq<string>)
    ensures forall k :: k in q <==> k in s
    ensures Orders.Ascending(q, Less)
    ensures forall i, j :: 0 <= i < j < |q| ==> q[i] != q[j]
  {
    LessStrictTotal();
    Orders.Sorted(s, Less)
  }

  method SortKeys(s: set<string>) returns (q: seq<string>)
    ensures q == Sorted(s)
    ensures Orders.Ascending(q, Less) && forall k :: k in q <==> k in s
  {
    LessStrictTotal();
    q := Orders.Sort(s, Less);
  }

  /** The order is decided at the first place where the strings differ, a missing character coming first. */
  lemma LessIff(a: string, b: string)
    ensures Less(a, b) <==> exists n :: DecidedAt(a, b, n)
  {
    if Less(a, b) {
      var n := Decided(a, b);
    }
    if n :| DecidedAt(a, b, n) {
      DecidedLess(a, b, n);
    }
  }

  predicate DecidedAt(a: string, b: string, n: int) {
    && 0 <= n <= |a| && n < |b| && a[..n] == b[..n]
    && (n == |a| || a[n] as int < b[n] as int)
  }

  lemma {:induction false} Decided(a: string, b: string) returns (n: nat)
    requires Less(a, b)
    ensures DecidedAt(a, b, n)
  {
    if a == [] || a[0] < b[0] {
      n := 0;
    } else {
      var m := Decided(a[1..], b[1..]);
      n := m + 1;
      assert a[..n] == [a[0]] + a[1..][..m] && b[..n] == [b[0]] + b[1..][..m];
    }
  }

  lemma {:induction false} DecidedLess(a: string, b: string, n: nat)
    requires DecidedAt(a, b, n)
    ensures Less(a, b)
  {
    if n > 0 {
      assert a[0] == a[..n][0] == b[..n][0] == b[0];
      assert a[1..][..n - 1] == a[..n][1..] && b[1..][..n - 1] == b[..n][1..];
      DecidedLess(a[1..], b[1..], n - 1);
    }
  }
}
