// Where each bar of the differential flame graph lies: behind the samples of all stacks that branch off before it.
module FlamePositions {
  import opened Wrappers
  import Orders
  import opened StringOrder
  import opened FlameTrie
  import opened FlameDiff

  /** At the first symbol in which the paths differ, `t` has the smaller one. */
  predicate Precedes(t: Path, q: Path) {
    t != [] && q != [] && (Less(t[0], q[0]) || (t[0] == q[0] && Precedes(t[1..], q[1..])))
  }

  // ---- in a tree ----

  ghost function Smaller(m: map<string, Node>, k: string): set<string> {
    set c | c in m.Keys && Less(c, k)
  }

  /** The samples of all nodes that branch off before a path. */
  ghost function BeforeOn(n: Node, q: Path): real
    decreases |q|
  {
    if q == [] then 0.0
    else SumOf(n.children, Smaller(n.children, q[0])) + BeforeOn(Child(n, q[0]), q[1..])
  }

  lemma SmallerPut(m: map<string, Node>, k: string, c: Node, x: string)
    ensures var m' := m[k := c];
            SumOf(m', Smaller(m', x)) == SumOf(m, Smaller(m, x))
              + (if !Less(k, x) then 0.0 else c.sample - (if k in m then m[k].sample else 0.0))
  {
    var m' := m[k := c];
    var s, s' := Smaller(m, x), Smaller(m', x);
    if Less(k, x) {
      assert s' == s + {k} && s' - {k} == s - {k};
      SumOfAny(m', s', k);
      SumOfSame(m, m', s - {k});
      if k in m {
        SumOfAny(m, s, k);
      } else {
        assert s - {k} == s;
      }
    } else {
      assert s' == s;
      SumOfSame(m, m', s);
    }
  }

  lemma {:induction false} AddPathBefore(n: Node, p: Path, s: real, q: Path)
    ensures BeforeOn(AddPath(n, p, s), q) == BeforeOn(n, q) + (if Precedes(p, q) then s else 0.0)
    decreases |q|
  {
    hide SumOf, Smaller, Less;
    if p != [] && q != [] {
      var c := AddPath(Child(n, p[0]), p[1..], s);
      SmallerPut(n.children, p[0], c, q[0]);
      LessTotal(p[0], q[0]);
      if p[0] == q[0] {
        AddPathBefore(Child(n, q[0]), p[1..], s, q[1..]);
      }
      assert Child(AddPath(n, p, s), q[0]) == if p[0] == q[0] then c else Child(n, q[0]);
    }
  }

  lemma {:induction false} EmptyBefore(q: Path)
    ensures BeforeOn(EMPTY_NODE, q) == 0.0
  {
    if q != [] {
      assert Smaller(EMPTY_NODE.children, q[0]) == {};
      EmptyBefore(q[1..]);
    }
  }

  // ---- in rows and lines ----

  function BeforeRows(rows: seq<Row>, q: Path): real {
    if rows == [] then 0.0
    else
      var last := rows[|rows| - 1];
      BeforeRows(rows[..|rows| - 1], q) + (if Precedes(Split(last.symbols), q) then last.sample else 0.0)
  }

  lemma {:induction false} BuildBefore(rows: seq<Row>, q: Path)
    ensures BeforeOn(Build(rows), q) == BeforeRows(rows, q)
  {
    hide BeforeOn, AddPath, Split, Precedes;
    if rows == [] {
      EmptyBefore(q);
    } else {
      var n := |rows| - 1;
      BuildBefore(rows[..n], q);
      AddPathBefore(Build(rows[..n]), Split(rows[n].symbols), rows[n].sample, q);
    }
  }

  lemma {:induction false} BeforeCons(r: Row, rows: seq<Row>, q: Path)
    ensures BeforeRows([r] + rows, q) == (if Precedes(Split(r.symbols), q) then r.sample else 0.0) + BeforeRows(rows, q)
  {
    hide Split, Precedes;
    if rows == [] {
      assert [r] + rows == [r] && [r][..0] == [];
    } else {
      assert ([r] + rows)[..|rows|] == [r] + rows[..|rows| - 1];
      BeforeCons(r, rows[..|rows| - 1], q);
    }
  }

  lemma {:induction false} UpsertBefore(rows: seq<Row>, symbols: string, sample: real, q: Path)
    ensures BeforeRows(Upsert(rows, symbols, sample), q) ==
      BeforeRows(rows, q) + (if Precedes(Split(symbols), q) then sample else 0.0)
  {
    hide Split, Precedes, BeforeRows;
    NoneBefore(q);
    if rows == [] {
      BeforeCons(Row(symbols, sample), [], q);
      assert [Row(symbols, sample)] + [] == [Row(symbols, sample)];
    } else {
      assert rows == [rows[0]] + rows[1..];
      BeforeCons(rows[0], rows[1..], q);
      if rows[0].symbols == symbols {
        BeforeCons(Row(symbols, rows[0].sample + sample), rows[1..], q);
      } else {
        UpsertBefore(rows[1..], symbols, sample, q);
        BeforeCons(rows[0], Upsert(rows[1..], symbols, sample), q);
      }
    }
  }

  lemma NoneBefore(q: Path)
    ensures BeforeRows([], q) == 0.0
  {
  }

  /** The samples of the lines that branch off before a path. */
  function BeforeLines(lines: seq<string>, number: string -> Option<real>, q: Path): real {
    if lines == [] then 0.0
    else
      var rest := BeforeLines(lines[..|lines| - 1], number, q);
      match ParseLine(lines[|lines| - 1], number)
      case None => rest
      case Some((symbols, sample)) => rest + (if Precedes(Split(symbols), q) then sample else 0.0)
  }

  lemma {:induction false} RowsBefore(lines: seq<string>, number: string -> Option<real>, q: Path)
    ensures BeforeRows(RowsOf(lines, number), q) == BeforeLines(lines, number, q)
  {
    hide ParseLine, Upsert, BeforeRows, Split, Precedes;
    NoneBefore(q);
    if lines != [] {
      var front := lines[..|lines| - 1];
      RowsBefore(front, number, q);
      var parsed := ParseLine(lines[|lines| - 1], number);
      if parsed.Some? {
        UpsertBefore(RowsOf(front, number), parsed.value.0, parsed.value.1, q);
      }
    }
  }

  // ---- in the layout ----

  ghost function BeforeIn(o: Option<Node>, q: Path): real { if o.Some? then BeforeOn(o.value, q) else 0.0 }

  ghost function SmallerSum(o: Option<Node>, k: string): real {
    if o.Some? then SumOf(o.value.children, Smaller(o.value.children, k)) else 0.0
  }

  lemma BeforeChild(o: Option<Node>, k: string, q: Path)
    ensures BeforeIn(o, [k] + q) == SmallerSum(o, k) + BeforeIn(ChildOf(o, k), q)
  {
    hide SumOf, Smaller;
    assert ([k] + q)[1..] == q;
    EmptyBefore(q);
  }

  // Between neighbours in order there is only the first one's own node.
  lemma SmallerNext(o: Option<Node>, k: string, k': string)
    requires Less(k, k') && forall c :: c in Keys(o) ==> Less(c, k) || c == k || !Less(c, k')
    ensures SmallerSum(o, k') == SmallerSum(o, k) + Sample(ChildOf(o, k))
  {
    if o.Some? {
      var m := o.value.children;
      var s, s' := Smaller(m, k), Smaller(m, k');
      forall c | c in m && Less(c, k)
        ensures Less(c, k') && c != k
      {
        LessTransitive(c, k, k');
        LessTotal(c, k);
      }
      if k in m {
        assert s' == s + {k} && s' - {k} == s;
        SumOfAny(m, s', k);
      } else {
        assert s' == s;
      }
    }
  }

  lemma SmallerFirst(o: Option<Node>, k: string)
    requires forall c :: c in Keys(o) ==> !Less(c, k)
    ensures SmallerSum(o, k) == 0.0
  {
    if o.Some? {
      assert Smaller(o.value.children, k) == {};
    }
  }

  ghost predicate PositionsFrom(bars: seq<Bar>, l: Option<Node>, r: Option<Node>, path: Path, x: real, y: real) {
    forall b :: b in bars ==>
      && path <= b.path
      && b.left == x + BeforeIn(l, b.path[|path|..]) && b.right == y + BeforeIn(r, b.path[|path|..])
  }

  /** Every bar of a layout lies behind what branches off before it, on both sides. */
  lemma {:induction false} LayoutPositions(
    l: Option<Node>, r: Option<Node>, tag: string, path: Path, x: real, y: real)
    ensures PositionsFrom(Layout(l, r, tag, path, x, y), l, r, path, x, y)
    decreases Tall(l) + Tall(r), 1
  {
    hide Sorted, Layout, LayoutOver, HeadBar, BeforeIn, PositionsFrom, Less;
    var keys := Sorted(Keys(l) + Keys(r));
    LayoutStep(l, r, tag, path, x, y);
    HeadIs(l, r, tag, path, x, y);
    FirstOf(l, r, keys);
    OverPositions(l, r, keys, path, x, y, x, y);
    HeadPosition(HeadBar(l, r, tag, path, x, y), l, r, path, x, y, LayoutOver(l, r, keys, path, x, y));
  }

  lemma FirstOf(l: Option<Node>, r: Option<Node>, keys: seq<string>)
    requires keys == Sorted(Keys(l) + Keys(r))
    ensures Rest(l, r, keys)
    ensures keys != [] ==> SmallerSum(l, keys[0]) == 0.0 == SmallerSum(r, keys[0])
  {
    if keys != [] {
      forall c | c in Keys(l) + Keys(r)
        ensures !Less(c, keys[0])
      {
        var i :| 0 <= i < |keys| && keys[i] == c;
        LessTotal(c, keys[0]);
      }
      SmallerFirst(l, keys[0]);
      SmallerFirst(r, keys[0]);
    }
  }

  lemma HeadPosition(head: Bar, l: Option<Node>, r: Option<Node>, path: Path, x: real, y: real, rest: seq<Bar>)
    requires head.path == path && head.left == x && head.right == y && PositionsFrom(rest, l, r, path, x, y)
    ensures PositionsFrom([head] + rest, l, r, path, x, y)
  {
    assert path[|path|..] == [];
    assert BeforeIn(l, []) == 0.0 == BeforeIn(r, []);
  }

  /** The names still to come, in order: all that are not smaller than the first of them. */
  ghost predicate Rest(l: Option<Node>, r: Option<Node>, keys: seq<string>) {
    && Orders.Ascending(keys, Less)
    && (forall k :: k in keys ==> k in Keys(l) + Keys(r))
    && forall c, k :: c in Keys(l) + Keys(r) && c !in keys && k in keys ==> Less(c, k)
  }

  lemma RestNext(l: Option<Node>, r: Option<Node>, keys: seq<string>)
    requires Rest(l, r, keys) && |keys| >= 1
    ensures Rest(l, r, keys[1..])
    ensures |keys| >= 2 ==> Less(keys[0], keys[1])
    ensures |keys| >= 2 ==>
      forall c :: c in Keys(l) + Keys(r) ==> Less(c, keys[0]) || c == keys[0] || !Less(c, keys[1])
  {
    hide Less;
    assert keys == [keys[0]] + keys[1..];
    forall c, k | c in Keys(l) + Keys(r) && c !in keys[1..] && k in keys[1..]
      ensures Less(c, k)
    {
      var i :| 0 <= i < |keys[1..]| && keys[1..][i] == k;
      assert keys[i + 1] == k && Less(keys[0], keys[i + 1]);
    }
    if |keys| >= 2 {
      forall c | c in Keys(l) + Keys(r)
        ensures Less(c, keys[0]) || c == keys[0] || !Less(c, keys[1])
      {
        if c in keys {
          var i :| 0 <= i < |keys| && keys[i] == c;
          LessTotal(c, keys[1]);
          assert i > 1 ==> Less(keys[1], keys[i]);
        } else {
          assert keys[0] in keys;
        }
      }
    }
  }

  lemma {:induction false} OverPositions(
    l: Option<Node>, r: Option<Node>, keys: seq<string>, path: Path, x0: real, y0: real, x: real, y: real)
    requires Rest(l, r, keys)
    requires keys != [] ==> x == x0 + SmallerSum(l, keys[0]) && y == y0 + SmallerSum(r, keys[0])
    ensures PositionsFrom(LayoutOver(l, r, keys, path, x, y), l, r, path, x0, y0)
    decreases Tall(l) + Tall(r), 0, |keys|
  {
    hide Layout, LayoutOver, Less, PositionsFrom, SmallerSum, Sample;
    if keys == [] {
      OverEnd(l, r, path, x, y);
      NonePlaced(l, r, path, x0, y0);
    } else {
      var k := keys[0];
      ChildShorter(l, r, k);
      OverStep(l, r, keys, path, x, y);
      var lc, rc := ChildOf(l, k), ChildOf(r, k);
      LayoutPositions(lc, rc, k, path + [k], x, y);
      RestNext(l, r, keys);
      if |keys| >= 2 {
        SmallerNext(l, k, keys[1]);
        SmallerNext(r, k, keys[1]);
      }
      OverPositions(l, r, keys[1..], path, x0, y0, x + Sample(lc), y + Sample(rc));
      ChildPositions(Layout(lc, rc, k, path + [k], x, y), l, r, k, path, x0, y0, x, y);
      PositionsAppend(Layout(lc, rc, k, path + [k], x, y),
        LayoutOver(l, r, keys[1..], path, x + Sample(lc), y + Sample(rc)), l, r, path, x0, y0);
    }
  }

  lemma NonePlaced(l: Option<Node>, r: Option<Node>, path: Path, x: real, y: real)
    ensures PositionsFrom([], l, r, path, x, y)
  {
  }

  lemma PositionsAppend(a: seq<Bar>, b: seq<Bar>, l: Option<Node>, r: Option<Node>, path: Path, x: real, y: real)
    requires PositionsFrom(a, l, r, path, x, y) && PositionsFrom(b, l, r, path, x, y)
    ensures PositionsFrom(a + b, l, r, path, x, y)
  {
  }

  lemma ChildPositions(bars: seq<Bar>, l: Option<Node>, r: Option<Node>, k: string, path: Path,
                       x0: real, y0: real, x: real, y: real)
    requires PositionsFrom(bars, ChildOf(l, k), ChildOf(r, k), path + [k], x, y)
    requires x == x0 + SmallerSum(l, k) && y == y0 + SmallerSum(r, k)
    ensures PositionsFrom(bars, l, r, path, x0, y0)
  {
    hide BeforeIn, SmallerSum;
    forall b | b in bars
      ensures path <= b.path
      ensures b.left == x0 + BeforeIn(l, b.path[|path|..]) && b.right == y0 + BeforeIn(r, b.path[|path|..])
    {
      var q := b.path[|path| + 1..];
      assert path + [k] <= b.path && b.path[|path|] == (path + [k])[|path|];
      assert b.path[|path|..] == [k] + q;
      BeforeChild(l, k, q);
      BeforeChild(r, k, q);
    }
  }

  // ---- the order of the bars ----

  /** A path comes before the paths that it begins, and before those that have a greater symbol where they differ. */
  predicate Comes(p: Path, q: Path) { p < q || Precedes(p, q) }

  ghost predicate InOrder(bars: seq<Bar>) {
    forall i, j :: 0 <= i < j < |bars| ==> Comes(bars[i].path, bars[j].path)
  }

  ghost predicate AllUnder(bars: seq<Bar>, path: Path) {
    forall b :: b in bars ==> path <= b.path
  }

  ghost predicate AllOver(bars: seq<Bar>, path: Path, keys: seq<string>) {
    forall b :: b in bars ==> path <= b.path && |b.path| > |path| && b.path[|path|] in keys
  }

  /** The bars of a layout are in this order. */
  lemma {:induction false} LayoutInOrder(
    l: Option<Node>, r: Option<Node>, tag: string, path: Path, x: real, y: real)
    ensures InOrder(Layout(l, r, tag, path, x, y)) && AllUnder(Layout(l, r, tag, path, x, y), path)
    decreases Tall(l) + Tall(r), 1
  {
    hide Sorted, Layout, LayoutOver, HeadBar, InOrder, Less;
    var keys := Sorted(Keys(l) + Keys(r));
    LayoutStep(l, r, tag, path, x, y);
    HeadIs(l, r, tag, path, x, y);
    FirstOf(l, r, keys);
    OverInOrder(l, r, keys, path, x, y);
    HeadFirst(HeadBar(l, r, tag, path, x, y), LayoutOver(l, r, keys, path, x, y), path, keys);
  }

  lemma HeadFirst(head: Bar, rest: seq<Bar>, path: Path, keys: seq<string>)
    requires head.path == path && InOrder(rest) && AllOver(rest, path, keys)
    ensures InOrder([head] + rest) && AllUnder([head] + rest, path)
  {
    hide Precedes;
    var all := [head] + rest;
    forall i, j | 0 <= i < j < |all|
      ensures Comes(all[i].path, all[j].path)
    {
      assert all[j] == rest[j - 1];
      if i > 0 {
        assert all[i] == rest[i - 1];
      } else {
        assert rest[j - 1] in rest;
      }
    }
  }

  lemma {:induction false} OverInOrder(
    l: Option<Node>, r: Option<Node>, keys: seq<string>, path: Path, x: real, y: real)
    requires Rest(l, r, keys)
    ensures InOrder(LayoutOver(l, r, keys, path, x, y)) && AllOver(LayoutOver(l, r, keys, path, x, y), path, keys)
    decreases Tall(l) + Tall(r), 0, |keys|
  {
    hide Layout, LayoutOver, Less, InOrder, AllUnder, AllOver;
    if keys == [] {
      OverEnd(l, r, path, x, y);
      NoneInOrder(path);
    } else {
      var k := keys[0];
      ChildShorter(l, r, k);
      OverStep(l, r, keys, path, x, y);
      var lc, rc := ChildOf(l, k), ChildOf(r, k);
      LayoutInOrder(lc, rc, k, path + [k], x, y);
      RestNext(l, r, keys);
      OverInOrder(l, r, keys[1..], path, x + Sample(lc), y + Sample(rc));
      ThenInOrder(Layout(lc, rc, k, path + [k], x, y),
        LayoutOver(l, r, keys[1..], path, x + Sample(lc), y + Sample(rc)), path, keys);
    }
  }

  lemma NoneInOrder(path: Path)
    ensures InOrder([]) && AllOver([], path, [])
  {
  }

  lemma ThenInOrder(a: seq<Bar>, b: seq<Bar>, path: Path, keys: seq<string>)
    requires keys != [] && Orders.Ascending(keys, Less)
    requires InOrder(a) && AllUnder(a, path + [keys[0]]) && InOrder(b) && AllOver(b, path, keys[1..])
    ensures InOrder(a + b) && AllOver(a + b, path, keys)
  {
    hide Less, Precedes;
    forall p, q | p in a && q in b
      ensures Comes(p.path, q.path)
    {
      var i :| 0 <= i < |keys[1..]| && keys[1..][i] == q.path[|path|];
      assert keys[i + 1] == q.path[|path|] && Less(keys[0], keys[i + 1]);
      assert p.path[|path|] == (path + [keys[0]])[|path|];
      Differ(p.path, q.path, |path|);
    }
    forall p | p in a
      ensures path <= p.path && |p.path| > |path| && p.path[|path|] in keys
    {
      assert path + [keys[0]] <= p.path && p.path[|path|] == (path + [keys[0]])[|path|];
    }
  }

  lemma {:induction false} Differ(p: Path, q: Path, n: nat)
    requires n < |p| && n < |q| && p[..n] == q[..n] && Less(p[n], q[n])
    ensures Precedes(p, q)
  {
    if n > 0 {
      assert p[0] == p[..n][0] && q[0] == q[..n][0];
      assert p[1..][..n - 1] == p[..n][1..] && q[1..][..n - 1] == q[..n][1..];
      Differ(p[1..], q[1..], n - 1);
    }
  }

  // ---- from the lines ----

  /** Every bar that two lists of lines give lies, on each side, behind the samples of the lines that branch off
      before it; and the bars are in order. */
  lemma LinesPositions(left: seq<string>, right: seq<string>, number: string -> Option<real>)
    ensures InOrder(LinesLayout(left, right, number))
    ensures forall b :: b in LinesLayout(left, right, number) ==>
      b.left == BeforeLines(left, number, b.path) && b.right == BeforeLines(right, number, b.path)
  {
    hide Build, RowsOf, Layout, InOrder, BeforeOn, BeforeLines;
    var l, r := Build(RowsOf(left, number)), Build(RowsOf(right, number));
    LayoutPositions(Some(l), Some(r), "total", [], 0.0, 0.0);
    LayoutInOrder(Some(l), Some(r), "total", [], 0.0, 0.0);
    forall b | b in LinesLayout(left, right, number)
      ensures b.left == BeforeLines(left, number, b.path) && b.right == BeforeLines(right, number, b.path)
    {
      assert b.path[0..] == b.path;
      BuildBefore(RowsOf(left, number), b.path);
      BuildBefore(RowsOf(right, number), b.path);
      RowsBefore(left, number, b.path);
      RowsBefore(right, number, b.path);
    }
  }
}
