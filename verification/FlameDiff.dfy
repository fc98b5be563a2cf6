// The differential flame graph (server/dashboard/flamegraph.py): two call-stack trees walked together,
// each level a list of bars whose positions are encoded relative to the bar before.
module FlameDiff {
  import opened Wrappers
  import opened StringOrder
  import opened FlameTrie

  /** Where the nodes at a path of the two trees are placed, in absolute positions. */
  datatype Bar = Bar(
    path: Path, level: nat,
    left: real, leftWidth: real, leftSelf: real,
    right: real, rightWidth: real, rightSelf: real, tag: string)

  /** The seven numbers of a cell. */
  datatype Cell = Cell(
    leftOffset: real, leftWidth: real, leftSelf: real,
    rightOffset: real, rightWidth: real, rightSelf: real, name: nat)

  function Sample(o: Option<Node>): real { if o.Some? then o.value.sample else 0.0 }

  ghost function Self(o: Option<Node>): real { if o.Some? then SelfSample(o.value) else 0.0 }

  function Keys(o: Option<Node>): set<string> { if o.Some? then o.value.children.Keys else {} }

  function ChildOf(o: Option<Node>, k: string): Option<Node> {
    if o.Some? && k in o.value.children then Some(o.value.children[k]) else None
  }

  // ---- the height of a tree, for termination ----

  ghost function Height(n: Node): nat
    decreases n, 1
  {
    1 + HeightOver(n, n.children.Keys)
  }

  ghost function HeightOver(n: Node, keys: set<string>): (h: nat)
    requires keys <= n.children.Keys
    ensures forall k :: k in keys ==> Height(n.children[k]) <= h
    decreases n, 0, keys
  {
    if keys == {} then 0
    else
      var k :| k in keys;
      Height(n.children[k]) + HeightOver(n, keys - {k})
  }

  ghost function Tall(o: Option<Node>): nat { if o.Some? then Height(o.value) else 0 }

  lemma ChildShorter(l: Option<Node>, r: Option<Node>, k: string)
    requires k in Keys(l) + Keys(r)
    ensures Tall(ChildOf(l, k)) + Tall(ChildOf(r, k)) < Tall(l) + Tall(r)
  {
  }

  // ---- the layout ----

  ghost function HeadBar(l: Option<Node>, r: Option<Node>, tag: string, path: Path, x: real, y: real): (b: Bar)
    ensures b.path == path && b.level == |path| + 1 && b.tag == tag
  {
    Bar(path, |path| + 1, x, Sample(l), Self(l), y, Sample(r), Self(r), tag)
  }

  /** The bars of the subtrees at `path`, placed at `x` on the left and `y` on the right, parents first. */
  ghost function Layout(l: Option<Node>, r: Option<Node>, tag: string, path: Path, x: real, y: real): seq<Bar>
    decreases Tall(l) + Tall(r), 1
  {
    [HeadBar(l, r, tag, path, x, y)] + LayoutOver(l, r, Sorted(Keys(l) + Keys(r)), path, x, y)
  }

  ghost function LayoutOver(l: Option<Node>, r: Option<Node>, keys: seq<string>, path: Path, x: real, y: real): seq<Bar>
    requires forall k :: k in keys ==> k in Keys(l) + Keys(r)
    decreases Tall(l) + Tall(r), 0, |keys|
  {
    if keys == [] then []
    else
      ChildShorter(l, r, keys[0]);
      var lc, rc := ChildOf(l, keys[0]), ChildOf(r, keys[0]);
      Layout(lc, rc, keys[0], path + [keys[0]], x, y)
      + LayoutOver(l, r, keys[1..], path, x + Sample(lc), y + Sample(rc))
  }

  function OnLevel(bars: seq<Bar>, level: nat): seq<Bar> {
    if bars == [] then []
    else
      var front := OnLevel(bars[..|bars| - 1], level);
      if bars[|bars| - 1].level == level then front + [bars[|bars| - 1]] else front
  }

  /** Where the `i`-th bar's offset counts from: the end of the bar before, or 0. */
  function LeftEnd(bars: seq<Bar>, i: nat): real
    requires i <= |bars|
  {
    if i == 0 then 0.0 else bars[i - 1].left + bars[i - 1].leftWidth
  }

  function RightEnd(bars: seq<Bar>, i: nat): real
    requires i <= |bars|
  {
    if i == 0 then 0.0 else bars[i - 1].right + bars[i - 1].rightWidth
  }

  /** A cell encodes the `i`-th bar of its level. */
  predicate Encodes(c: Cell, bars: seq<Bar>, i: nat, names: seq<string>)
    requires i < |bars|
  {
    var b := bars[i];
    && c.leftOffset == b.left - LeftEnd(bars, i) && c.leftWidth == b.leftWidth && c.leftSelf == b.leftSelf
    && c.rightOffset == b.right - RightEnd(bars, i) && c.rightWidth == b.rightWidth && c.rightSelf == b.rightSelf
    && c.name < |names| && names[c.name] == b.tag
  }

  predicate EncodesLevel(cells: seq<Cell>, bars: seq<Bar>, names: seq<string>) {
    |cells| == |bars| && forall i :: 0 <= i < |cells| ==> Encodes(cells[i], bars, i, names)
  }

  // ---- decoding, as the flame graph component does: running sums along a level ----

  function DecodeLeft(cells: seq<Cell>, i: nat): real
    requires i < |cells|
  {
    (if i == 0 then 0.0 else DecodeLeft(cells, i - 1) + cells[i - 1].leftWidth) + cells[i].leftOffset
  }

  function DecodeRight(cells: seq<Cell>, i: nat): real
    requires i < |cells|
  {
    (if i == 0 then 0.0 else DecodeRight(cells, i - 1) + cells[i - 1].rightWidth) + cells[i].rightOffset
  }

  /** Running sums along a level give back the absolute position of every bar, on both sides. */
  lemma {:induction false} LevelDecodes(cells: seq<Cell>, bars: seq<Bar>, names: seq<string>, i: nat)
    requires EncodesLevel(cells, bars, names) && i < |cells|
    ensures DecodeLeft(cells, i) == bars[i].left && DecodeRight(cells, i) == bars[i].right
  {
    assert Encodes(cells[i], bars, i, names);
    if i > 0 {
      LevelDecodes(cells, bars, names, i - 1);
      assert Encodes(cells[i - 1], bars, i - 1, names);
    }
  }

  // ---- the writer ----

  function EndOf(bars: seq<Bar>): (real, real) { (LeftEnd(bars, |bars|), RightEnd(bars, |bars|)) }

  function Position(m: map<nat, real>, level: nat): real { if level in m then m[level] else 0.0 }

  function Larger(a: real, b: real): real { if a < b then b else a }

  function MaxSelf(bars: seq<Bar>): real {
    if bars == [] then 0.0
    else
      var b := bars[|bars| - 1];
      Larger(MaxSelf(bars[..|bars| - 1]), Larger(b.leftSelf, b.rightSelf))
  }

  method CalcSelf(o: Option<Node>) returns (self: real)
    ensures self == Self(o)
  {
    self := 0.0;
    if o.Some? {
      var children := CalcSumChildren(o.value);
      self := o.value.sample - children;
    }
  }

  class Flamebearer {
    var names: seq<string>
    var tagToIndex: map<string, nat>
    var levels: seq<seq<Cell>>
    var maxSelf: real
    var posLeft: map<nat, real>
    var posRight: map<nat, real>
    ghost var bars: seq<Bar>  // what the cells stand for

    function LevelCells(level: nat): seq<Cell>
      reads this
    {
      if 1 <= level <= |levels| then levels[level - 1] else []
    }

    ghost predicate Named()
      reads this`names, this`tagToIndex
    {
      && (forall t :: t in tagToIndex ==> tagToIndex[t] < |names| && names[tagToIndex[t]] == t)
      && (forall i :: 0 <= i < |names| ==> names[i] in tagToIndex && tagToIndex[names[i]] == i)
    }

    /** The cells of a level encode its bars, and the tracked positions are where the next bar counts from. */
    ghost predicate LevelValid(level: nat)
      reads this
    {
      && EncodesLevel(LevelCells(level), OnLevel(bars, level), names)
      && (Position(posLeft, level), Position(posRight, level)) == EndOf(OnLevel(bars, level))
    }

    ghost predicate Valid()
      reads this
    {
      && Named()
      && (forall level :: level >= 1 ==> LevelValid(level))
      && maxSelf == MaxSelf(bars)
    }

    constructor ()
      ensures Valid() && bars == []
    {
      names, tagToIndex, levels, maxSelf, posLeft, posRight, bars := [], map[], [], 0.0, map[], map[], [];
    }

    method TagIndex(tag: string) returns (index: nat)
      requires Valid()
      modifies this`names, this`tagToIndex
      ensures Valid() && index < |names| && names[index] == tag
    {
      hide OnLevel, EndOf, MaxSelf, EncodesLevel;
      if tag !in tagToIndex {
        tagToIndex := tagToIndex[tag := |names|];
        names := names + [tag];
      }
      index := tagToIndex[tag];
      forall l: nat | l >= 1
        ensures LevelValid(l)
      {
        assert old(LevelValid(l));
        NamesGrow(LevelCells(l), OnLevel(bars, l), old(names), names);
      }
    }

    method ExtendLevels(level: nat)
      requires level >= 1
      modifies this`levels
      ensures |levels| >= level && forall l :: LevelCells(l) == old(LevelCells(l))
    {
      while |levels| < level
        invariant forall l :: LevelCells(l) == old(LevelCells(l))
        decreases level - |levels|
      {
        levels := levels + [[]];
      }
    }

    /** `_add_pyro_cell_diff`. */
    method AddCell(l: Option<Node>, r: Option<Node>, index: nat, ghost path: Path, level: nat, x: real, y: real)
      requires Valid() && level == |path| + 1 && index < |names|
      modifies this`levels, this`posLeft, this`posRight, this`maxSelf, this`bars
      ensures Valid()
      ensures names == old(names) && bars == old(bars) + [HeadBar(l, r, names[index], path, x, y)]
    {
      hide OnLevel, EncodesLevel, MaxSelf, Self, Named, EndOf, HeadBar;
      HeadIs(l, r, names[index], path, x, y);
      ghost var before := bars;
      ExtendLevels(level);
      var leftSelf := CalcSelf(l);
      var rightSelf := CalcSelf(r);
      var cell := Cell(
        x - Position(posLeft, level), Sample(l), leftSelf,
        y - Position(posRight, level), Sample(r), rightSelf, index);
      ghost var bar := HeadBar(l, r, names[index], path, x, y);
      levels := levels[level - 1 := levels[level - 1] + [cell]];
      posLeft := posLeft[level := x + Sample(l)];
      posRight := posRight[level := y + Sample(r)];
      maxSelf := Larger(maxSelf, Larger(leftSelf, rightSelf));
      bars := bars + [bar];
      BarAdded(before, bar);
      forall l: nat | l >= 1
        ensures LevelValid(l)
      {
        assert old(LevelValid(l));
        if l == level {
          CellAdded(old(LevelCells(level)), OnLevel(before, level), names, cell, bar);
          assert LevelCells(l) == old(LevelCells(l)) + [cell];
        } else {
          assert LevelCells(l) == old(LevelCells(l));
        }
      }
    }

    /** `_rec_pyro_diff`: writes exactly the layout of the two subtrees. */
    method RecDiff(l: Option<Node>, r: Option<Node>, tag: string, ghost path: Path, level: nat, x: real, y: real)
      requires Valid() && level == |path| + 1
      modifies this
      ensures Valid() && bars == old(bars) + Layout(l, r, tag, path, x, y)
      decreases Tall(l) + Tall(r), 1
    {
      hide Valid, Layout, LayoutOver, HeadBar, Tall, Sorted;
      LayoutStep(l, r, tag, path, x, y);
      var index := TagIndex(tag);
      AddCell(l, r, index, path, level, x, y);
      var keys := SortKeys(Keys(l) + Keys(r));
      RecChildren(l, r, keys, path, level + 1, x, y);
    }

    // The loop of `_rec_pyro_diff` over the children of both sides.
    method RecChildren(
      l: Option<Node>, r: Option<Node>, keys: seq<string>, ghost path: Path, level: nat, x: real, y: real)
      requires Valid() && level == |path| + 2 && forall k :: k in keys ==> k in Keys(l) + Keys(r)
      modifies this
      ensures Valid() && bars == old(bars) + LayoutOver(l, r, keys, path, x, y)
      decreases Tall(l) + Tall(r), 0
    {
      hide Valid, Layout, LayoutOver, Tall;
      var nextLeft, nextRight := x, y;
      ghost var start := bars;
      assert keys[0..] == keys;
      for i := 0 to |keys|
        invariant Valid()
        invariant bars + LayoutOver(l, r, keys[i..], path, nextLeft, nextRight) ==
            start + LayoutOver(l, r, keys, path, x, y)
      {
        assert keys[i..][1..] == keys[i + 1..];
        ChildShorter(l, r, keys[i]);
        OverStep(l, r, keys[i..], path, nextLeft, nextRight);
        var leftChild, rightChild := ChildOf(l, keys[i]), ChildOf(r, keys[i]);
        RecDiff(leftChild, rightChild, keys[i], path + [keys[i]], level, nextLeft, nextRight);
        nextLeft := nextLeft + Sample(leftChild);
        nextRight := nextRight + Sample(rightChild);
      }
      OverEnd(l, r, path, nextLeft, nextRight);
      assert bars + [] == bars && keys[|keys|..] == [];
    }
  }

  lemma HeadIs(l: Option<Node>, r: Option<Node>, tag: string, path: Path, x: real, y: real)
    ensures var b := HeadBar(l, r, tag, path, x, y);
            && b.left == x && b.leftWidth == Sample(l) && b.leftSelf == Self(l)
            && b.right == y && b.rightWidth == Sample(r) && b.rightSelf == Self(r)
  {
  }

  lemma LayoutStep(l: Option<Node>, r: Option<Node>, tag: string, path: Path, x: real, y: real)
    ensures Layout(l, r, tag, path, x, y)
      == [HeadBar(l, r, tag, path, x, y)] + LayoutOver(l, r, Sorted(Keys(l) + Keys(r)), path, x, y)
  {
  }

  lemma OverStep(l: Option<Node>, r: Option<Node>, keys: seq<string>, path: Path, x: real, y: real)
    requires keys != [] && forall k :: k in keys ==> k in Keys(l) + Keys(r)
    ensures var lc, rc := ChildOf(l, keys[0]), ChildOf(r, keys[0]);
            LayoutOver(l, r, keys, path, x, y)
            == Layout(lc, rc, keys[0], path + [keys[0]], x, y)
               + LayoutOver(l, r, keys[1..], path, x + Sample(lc), y + Sample(rc))
  {
  }

  lemma OverEnd(l: Option<Node>, r: Option<Node>, path: Path, x: real, y: real)
    ensures LayoutOver(l, r, [], path, x, y) == []
  {
  }

  lemma BarAdded(bars: seq<Bar>, b: Bar)
    ensures forall level ::
      OnLevel(bars + [b], level) == if b.level == level then OnLevel(bars, level) + [b] else OnLevel(bars, level)
    ensures MaxSelf(bars + [b]) == Larger(MaxSelf(bars), Larger(b.leftSelf, b.rightSelf))
  {
  }

  lemma NamesGrow(cells: seq<Cell>, bars: seq<Bar>, names: seq<string>, names': seq<string>)
    requires EncodesLevel(cells, bars, names) && names <= names'
    ensures EncodesLevel(cells, bars, names')
  {
  }

  lemma CellAdded(cells: seq<Cell>, bars: seq<Bar>, names: seq<string>, c: Cell, b: Bar)
    requires EncodesLevel(cells, bars, names)
    requires c.leftOffset == b.left - EndOf(bars).0 && c.rightOffset == b.right - EndOf(bars).1
    requires c.leftWidth == b.leftWidth && c.leftSelf == b.leftSelf
    requires c.rightWidth == b.rightWidth && c.rightSelf == b.rightSelf
    requires c.name < |names| && names[c.name] == b.tag
    ensures EncodesLevel(cells + [c], bars + [b], names)
    ensures EndOf(bars + [b]) == (b.left + b.leftWidth, b.right + b.rightWidth)
  {
  }

  // ---- geometry ----

  ghost predicate SoundSide(o: Option<Node>) { o.Some? ==> Sound(o.value) }

  /** Bars of non-negative width inside a frame. */
  predicate Within(b: Bar, x: real, xEnd: real, y: real, yEnd: real) {
    && b.leftWidth >= 0.0 && b.rightWidth >= 0.0
    && x <= b.left && b.left + b.leftWidth <= xEnd
    && y <= b.right && b.right + b.rightWidth <= yEnd
  }

  predicate Before(a: Bar, b: Bar) {
    a.left + a.leftWidth <= b.left && a.right + a.rightWidth <= b.right
  }

  predicate Inside(b: Bar, parent: Bar) {
    Within(b, parent.left, parent.left + parent.leftWidth, parent.right, parent.right + parent.rightWidth)
  }

  /** Bars of one level, in order, do not overlap on either side. */
  ghost predicate Apart(bars: seq<Bar>) {
    forall i, j :: 0 <= i < j < |bars| && bars[i].level == bars[j].level ==> Before(bars[i], bars[j])
  }

  predicate ParentOf(p: Bar, b: Bar) {
    b.path != [] && p.path == b.path[..|b.path| - 1]
  }

  /** The bar of the parent of the bar at `i` comes before it, one level up, and contains it on both sides. */
  predicate HasParent(bars: seq<Bar>, i: nat)
    requires i < |bars|
  {
    exists j :: 0 <= j < i && ParentOf(bars[j], bars[i]) &&
      bars[j].level + 1 == bars[i].level && Inside(bars[i], bars[j])
  }

  /** So has every bar of a path longer than `n`. */
  ghost predicate Nested(bars: seq<Bar>, n: nat) {
    forall i :: 0 <= i < |bars| && |bars[i].path| > n ==> HasParent(bars, i)
  }

  predicate At(b: Bar, root: Path, n: nat, x: real, xEnd: real, y: real, yEnd: real) {
    root <= b.path && |b.path| >= n && b.level == |b.path| + 1 && Within(b, x, xEnd, y, yEnd)
  }

  /** All of it, for the bars from length `n` of the path on below `root`, inside a frame. */
  ghost predicate Placed(bars: seq<Bar>, root: Path, n: nat, x: real, xEnd: real, y: real, yEnd: real) {
    && (forall b :: b in bars ==> At(b, root, n, x, xEnd, y, yEnd))
    && Apart(bars) && Nested(bars, n)
  }

  function SumKeys(o: Option<Node>, keys: seq<string>): real {
    if keys == [] then 0.0 else Sample(ChildOf(o, keys[0])) + SumKeys(o, keys[1..])
  }

  lemma {:induction false} SumKeysIsSum(o: Option<Node>, keys: seq<string>, s: set<string>)
    requires forall i, j :: 0 <= i < j < |keys| ==> keys[i] != keys[j]
    requires forall k :: k in s <==> k in keys && k in Keys(o)
    requires o.Some? && s <= o.value.children.Keys
    ensures SumKeys(o, keys) == SumOf(o.value.children, s)
  {
    if keys == [] {
      assert s == {};
    } else {
      var k := keys[0];
      SumKeysIsSum(o, keys[1..], s - {k});
      if k in s {
        SumOfAny(o.value.children, s, k);
      } else {
        assert s - {k} == s;
      }
    }
  }

  lemma ChildrenFit(l: Option<Node>, r: Option<Node>)
    requires SoundSide(l) && SoundSide(r)
    ensures SumKeys(l, Sorted(Keys(l) + Keys(r))) <= Sample(l)
    ensures SumKeys(r, Sorted(Keys(l) + Keys(r))) <= Sample(r)
  {
    var keys := Sorted(Keys(l) + Keys(r));
    if l.Some? {
      SumKeysIsSum(l, keys, Keys(l));
    } else {
      NoChildren(l, keys);
    }
    if r.Some? {
      SumKeysIsSum(r, keys, Keys(r));
    } else {
      NoChildren(r, keys);
    }
  }

  lemma {:induction false} NoChildren(o: Option<Node>, keys: seq<string>)
    requires o.None?
    ensures SumKeys(o, keys) == 0.0
  {
    if keys != [] {
      NoChildren(o, keys[1..]);
    }
  }

  lemma PlacedAppend(a: seq<Bar>, b: seq<Bar>, root: Path, n: nat,
                     x: real, xMid: real, xEnd: real, y: real, yMid: real, yEnd: real)
    requires Placed(a, root, n, x, xMid, y, yMid) && Placed(b, root, n, xMid, xEnd, yMid, yEnd)
    requires x <= xMid <= xEnd && y <= yMid <= yEnd
    ensures Placed(a + b, root, n, x, xEnd, y, yEnd)
  {
    hide Apart, Nested;
    forall c | c in a + b
      ensures At(c, root, n, x, xEnd, y, yEnd)
    {
      if c in a {
        assert At(c, root, n, x, xMid, y, yMid);
      } else {
        assert At(c, root, n, xMid, xEnd, yMid, yEnd);
      }
    }
    forall p, q | p in a && q in b
      ensures Before(p, q)
    {
      assert At(p, root, n, x, xMid, y, yMid) && At(q, root, n, xMid, xEnd, yMid, yEnd);
    }
    ApartAppend(a, b);
    NestedAppend(a, b, n);
  }

  lemma ApartAppend(a: seq<Bar>, b: seq<Bar>)
    requires Apart(a) && Apart(b) && forall p, q :: p in a && q in b ==> Before(p, q)
    ensures Apart(a + b)
  {
  }

  lemma NestedAppend(a: seq<Bar>, b: seq<Bar>, n: nat)
    requires Nested(a, n) && Nested(b, n)
    ensures Nested(a + b, n)
  {
    hide HasParent;
    var c := a + b;
    assert [] + a + b == c && a + b + [] == c;
    forall i | 0 <= i < |c| && |c[i].path| > n
      ensures HasParent(c, i)
    {
      if i < |a| {
        ParentMoved([], a, b, i);
      } else {
        ParentMoved(a, b, [], i - |a|);
      }
    }
  }

  lemma ParentMoved(pre: seq<Bar>, a: seq<Bar>, post: seq<Bar>, i: nat)
    requires i < |a| && HasParent(a, i)
    ensures HasParent(pre + a + post, |pre| + i)
  {
    var c := pre + a + post;
    var j :| 0 <= j < i && ParentOf(a[j], a[i]) && a[j].level + 1 == a[i].level && Inside(a[i], a[j]);
    assert c[|pre| + j] == a[j] && c[|pre| + i] == a[i];
  }

  // The children's bars, under the bar of their parent.
  lemma PlacedUnder(head: Bar, rest: seq<Bar>, xEnd: real, yEnd: real)
    requires head.leftWidth >= 0.0 && head.rightWidth >= 0.0 && head.level == |head.path| + 1
    requires xEnd <= head.left + head.leftWidth && yEnd <= head.right + head.rightWidth
    requires Placed(rest, head.path, |head.path| + 1, head.left, xEnd, head.right, yEnd)
    ensures Placed([head] + rest, head.path, |head.path|,
                   head.left, head.left + head.leftWidth, head.right, head.right + head.rightWidth)
  {
    hide Nested;
    NestedUnder(head, rest, xEnd, yEnd);
    var c := [head] + rest;
    forall b | b in c
      ensures At(b, head.path, |head.path|, head.left, head.left + head.leftWidth, head.right,
          head.right + head.rightWidth)
    {
      if b != head {
        assert At(b, head.path, |head.path| + 1, head.left, xEnd, head.right, yEnd);
      }
    }
    forall i, j | 0 <= i < j < |c| && c[i].level == c[j].level
      ensures Before(c[i], c[j])
    {
      assert c[j] in rest && At(c[j], head.path, |head.path| + 1, head.left, xEnd, head.right, yEnd);
      assert i > 0;
      assert rest[i - 1] == c[i] && rest[j - 1] == c[j];
    }
  }

  lemma NestedUnder(head: Bar, rest: seq<Bar>, xEnd: real, yEnd: real)
    requires head.level == |head.path| + 1
    requires xEnd <= head.left + head.leftWidth && yEnd <= head.right + head.rightWidth
    requires Placed(rest, head.path, |head.path| + 1, head.left, xEnd, head.right, yEnd)
    ensures Nested([head] + rest, |head.path|)
  {
    hide HasParent, At;
    var c := [head] + rest;
    assert [head] + rest + [] == c;
    forall i | 0 <= i < |c| && |c[i].path| > |head.path|
      ensures HasParent(c, i)
    {
      assert i > 0 && c[i] == rest[i - 1] && rest[i - 1] in rest;
      if |c[i].path| == |head.path| + 1 {
        ChildOfHead(head, rest, i, xEnd, yEnd);
      } else {
        ParentMoved([head], rest, [], i - 1);
      }
    }
  }

  lemma ChildOfHead(head: Bar, rest: seq<Bar>, i: nat, xEnd: real, yEnd: real)
    requires 0 < i <= |rest| && head.level == |head.path| + 1
    requires xEnd <= head.left + head.leftWidth && yEnd <= head.right + head.rightWidth
    requires At(rest[i - 1], head.path, |head.path| + 1, head.left, xEnd, head.right, yEnd)
    requires |rest[i - 1].path| == |head.path| + 1
    ensures HasParent([head] + rest, i)
  {
    var c := [head] + rest;
    assert c[0] == head && c[i] == rest[i - 1];
    assert ParentOf(c[0], c[i]) && Inside(c[i], c[0]);
  }

  /** A laid-out pair of sound trees: bars of a level never overlap, and every bar below the top lies inside the
      bar of its parent, on both sides, also where a node is missing from one tree. */
  lemma {:induction false} LayoutPlaced(l: Option<Node>, r: Option<Node>, tag: string, path: Path, x: real, y: real)
    requires SoundSide(l) && SoundSide(r)
    ensures Placed(Layout(l, r, tag, path, x, y), path, |path|, x, x + Sample(l), y, y + Sample(r))
    decreases Tall(l) + Tall(r), 1
  {
    hide Placed, Sorted, SumKeys, Layout, LayoutOver, HeadBar, SoundSide, Sample;
    var keys := Sorted(Keys(l) + Keys(r));
    LayoutStep(l, r, tag, path, x, y);
    OverPlaced(l, r, keys, path, x, y);
    ChildrenFit(l, r);
    HeadIs(l, r, tag, path, x, y);
    SampleSound(l);
    SampleSound(r);
    PlacedUnder(HeadBar(l, r, tag, path, x, y), LayoutOver(l, r, keys, path, x, y),
      x + SumKeys(l, keys), y + SumKeys(r, keys));
  }

  lemma {:induction false} OverPlaced(l: Option<Node>, r: Option<Node>, keys: seq<string>, path: Path, x: real, y: real)
    requires SoundSide(l) && SoundSide(r)
    requires forall k :: k in keys ==> k in Keys(l) + Keys(r)
    ensures SumKeys(l, keys) >= 0.0 && SumKeys(r, keys) >= 0.0
    ensures Placed(LayoutOver(l, r, keys, path, x, y), path, |path| + 1, x, x + SumKeys(l, keys), y,
        y + SumKeys(r, keys))
    decreases Tall(l) + Tall(r), 0, |keys|
  {
    hide Placed, SoundSide, Layout, LayoutOver;
    if keys == [] {
      NothingPlaced(path, x, y);
      OverEnd(l, r, path, x, y);
    } else {
      ChildShorter(l, r, keys[0]);
      OverStep(l, r, keys, path, x, y);
      var lc, rc := ChildOf(l, keys[0]), ChildOf(r, keys[0]);
      ChildSound(l, keys[0]);
      ChildSound(r, keys[0]);
      LayoutPlaced(lc, rc, keys[0], path + [keys[0]], x, y);
      PlacedHigher(Layout(lc, rc, keys[0], path + [keys[0]], x, y), path, keys[0], x, x + Sample(lc), y,
        y + Sample(rc));
      OverPlaced(l, r, keys[1..], path, x + Sample(lc), y + Sample(rc));
      PlacedAppend(
        Layout(lc, rc, keys[0], path + [keys[0]], x, y),
        LayoutOver(l, r, keys[1..], path, x + Sample(lc), y + Sample(rc)),
        path, |path| + 1, x, x + Sample(lc), x + SumKeys(l, keys), y, y + Sample(rc), y + SumKeys(r, keys));
    }
  }

  lemma PlacedHigher(bars: seq<Bar>, root: Path, k: string, x: real, xEnd: real, y: real, yEnd: real)
    requires Placed(bars, root + [k], |root| + 1, x, xEnd, y, yEnd)
    ensures Placed(bars, root, |root| + 1, x, xEnd, y, yEnd)
  {
    hide Apart, Nested;
    forall b | b in bars
      ensures At(b, root, |root| + 1, x, xEnd, y, yEnd)
    {
      assert At(b, root + [k], |root| + 1, x, xEnd, y, yEnd);
      assert root <= root + [k] <= b.path;
    }
  }

  lemma NothingPlaced(root: Path, x: real, y: real)
    ensures Placed([], root, |root| + 1, x, x, y, y)
  {
  }

  lemma SampleSound(o: Option<Node>)
    requires SoundSide(o)
    ensures Sample(o) >= 0.0
  {
  }

  lemma ChildSound(o: Option<Node>, k: string)
    requires SoundSide(o)
    ensures SoundSide(ChildOf(o, k)) && Sample(ChildOf(o, k)) >= 0.0
  {
  }

  lemma {:induction false} OnLevelApart(bars: seq<Bar>, level: nat)
    requires Apart(bars)
    ensures Apart(OnLevel(bars, level))
    ensures forall b :: b in OnLevel(bars, level) ==> b in bars && b.level == level
  {
    if bars != [] {
      var front, last := bars[..|bars| - 1], bars[|bars| - 1];
      assert bars == front + [last];
      OnLevelApart(front, level);
      var q := OnLevel(front, level);
      forall b | b in q && last.level == level
        ensures Before(b, last)
      {
        var i :| 0 <= i < |front| && front[i] == b;
        assert bars[i] == b;
      }
    }
  }

  /** With non-negative samples all offsets of a level are non-negative. */
  lemma OffsetsNonNegative(cells: seq<Cell>, bars: seq<Bar>, names: seq<string>, level: nat, root: Path, n: nat,
                           x: real, xEnd: real, y: real, yEnd: real)
    requires Placed(bars, root, n, x, xEnd, y, yEnd) && x >= 0.0 && y >= 0.0
    requires EncodesLevel(cells, OnLevel(bars, level), names)
    ensures forall i :: 0 <= i < |cells| ==> cells[i].leftOffset >= 0.0 && cells[i].rightOffset >= 0.0
  {
    hide Nested, OnLevel;
    OnLevelApart(bars, level);
    var q := OnLevel(bars, level);
    forall i | 0 <= i < |cells|
      ensures cells[i].leftOffset >= 0.0 && cells[i].rightOffset >= 0.0
    {
      assert Encodes(cells[i], q, i, names) && q[i] in bars;
      assert At(q[i], root, n, x, xEnd, y, yEnd);
      if i > 0 {
        assert Before(q[i - 1], q[i]);
      }
    }
  }

  // ---- one bar for every path ----

  ghost predicate Known(o: Option<Node>, q: Path) { o.Some? && Find(o.value, q).Some? }

  ghost function SampleOn(o: Option<Node>, q: Path): real { if o.Some? then SampleAt(o.value, q) else 0.0 }

  ghost function SelfOn(o: Option<Node>, q: Path): real { if o.Some? then SelfAt(o.value, q) else 0.0 }

  /** The bar of a path from `path` on shows the nodes that the rest of its path leads to on both sides. */
  ghost predicate Shows(b: Bar, l: Option<Node>, r: Option<Node>, tag: string, path: Path) {
    path <= b.path &&
    var q := b.path[|path|..];
    && (Known(l, q) || Known(r, q))
    && b.leftWidth == SampleOn(l, q) && b.leftSelf == SelfOn(l, q)
    && b.rightWidth == SampleOn(r, q) && b.rightSelf == SelfOn(r, q)
    && b.tag == if q == [] then tag else q[|q| - 1]
  }

  ghost predicate OncePerPath(bars: seq<Bar>) {
    forall i, j :: 0 <= i < j < |bars| ==> bars[i].path != bars[j].path
  }

  predicate HasBar(bars: seq<Bar>, p: Path) {
    exists b :: b in bars && b.path == p
  }

  /** For each path that leads to a node on either side there is one bar, and it shows that node; there are no
      others. */
  ghost predicate Depicts(bars: seq<Bar>, l: Option<Node>, r: Option<Node>, tag: string, path: Path) {
    && OncePerPath(bars)
    && (forall b :: b in bars ==> Shows(b, l, r, tag, path))
    && (forall q :: Known(l, q) || Known(r, q) ==> HasBar(bars, path + q))
  }

  predicate Under(b: Bar, keys: seq<string>, path: Path) {
    |b.path| > |path| && b.path[|path|] in keys
  }

  /** The same for the paths that begin with one of the keys. */
  ghost predicate DepictsOver(bars: seq<Bar>, l: Option<Node>, r: Option<Node>, keys: seq<string>, path: Path) {
    && OncePerPath(bars)
    && (forall b :: b in bars ==> Shows(b, l, r, "", path) && Under(b, keys, path))
    && (forall q: Path :: q != [] && q[0] in keys && (Known(l, q) || Known(r, q)) ==> HasBar(bars, path + q))
  }

  lemma StepInto(o: Option<Node>, k: string, q: Path)
    ensures Known(o, [k] + q) <==> Known(ChildOf(o, k), q)
    ensures SampleOn(o, [k] + q) == SampleOn(ChildOf(o, k), q) && SelfOn(o, [k] + q) == SelfOn(ChildOf(o, k), q)
  {
    assert ([k] + q)[1..] == q;
  }

  lemma ChildShows(b: Bar, l: Option<Node>, r: Option<Node>, k: string, path: Path)
    requires Shows(b, ChildOf(l, k), ChildOf(r, k), k, path + [k])
    ensures Shows(b, l, r, "", path) && |b.path| > |path| && b.path[|path|] == k
  {
    hide Known, SampleOn, SelfOn;
    var q := b.path[|path| + 1..];
    assert b.path[|path|] == (path + [k])[|path|];
    assert b.path[|path|..] == [k] + q;
    StepInto(l, k, q);
    StepInto(r, k, q);
  }

  lemma OnceAppend(a: seq<Bar>, b: seq<Bar>)
    requires OncePerPath(a) && OncePerPath(b) && forall p, q :: p in a && q in b ==> p.path != q.path
    ensures OncePerPath(a + b)
  {
  }

  lemma HasBarAppend(a: seq<Bar>, b: seq<Bar>, p: Path)
    ensures HasBar(a + b, p) <==> HasBar(a, p) || HasBar(b, p)
  {
  }

  // The bars of one child and those of the children behind it.
  lemma DepictsStep(l: Option<Node>, r: Option<Node>, keys: seq<string>, path: Path, a: seq<Bar>, b: seq<Bar>)
    requires keys != [] && keys[0] !in keys[1..]
    requires Depicts(a, ChildOf(l, keys[0]), ChildOf(r, keys[0]), keys[0], path + [keys[0]])
    requires DepictsOver(b, l, r, keys[1..], path)
    ensures DepictsOver(a + b, l, r, keys, path)
  {
    hide Shows, Known, OncePerPath, HasBar;
    var k := keys[0];
    forall c | c in a
      ensures Shows(c, l, r, "", path) && |c.path| > |path| && c.path[|path|] == k
    {
      ChildShows(c, l, r, k, path);
    }
    forall p, q | p in a && q in b
      ensures p.path != q.path
    {
      assert Under(q, keys[1..], path);
    }
    OnceAppend(a, b);
    forall q: Path | q != [] && q[0] in keys && (Known(l, q) || Known(r, q))
      ensures HasBar(a + b, path + q)
    {
      HasBarAppend(a, b, path + q);
      if q[0] == k {
        assert q == [k] + q[1..] && path + q == path + [k] + q[1..];
        StepInto(l, k, q[1..]);
        StepInto(r, k, q[1..]);
      } else {
        assert q[0] in keys[1..];
      }
    }
  }

  // The bar of a node and those of its children.
  lemma DepictsHead(l: Option<Node>, r: Option<Node>, tag: string, path: Path, head: Bar, keys: seq<string>,
      rest: seq<Bar>)
    requires head.path == path && Shows(head, l, r, tag, path)
    requires (forall k :: k in Keys(l) + Keys(r) ==> k in keys) && DepictsOver(rest, l, r, keys, path)
    ensures Depicts([head] + rest, l, r, tag, path)
  {
    hide Known, OncePerPath, HasBar, SampleOn, SelfOn;
    OneBar(head);
    OnceAppend([head], rest);
    forall b | b in rest
      ensures Shows(b, l, r, tag, path)
    {
      assert Shows(b, l, r, "", path) && Under(b, keys, path);
    }
    forall q: Path | Known(l, q) || Known(r, q)
      ensures HasBar([head] + rest, path + q)
    {
      HasBarAppend([head], rest, path + q);
      if q == [] {
        assert path + q == path;
      } else {
        KnownKey(l, q);
        KnownKey(r, q);
      }
    }
  }

  lemma OneBar(b: Bar)
    ensures OncePerPath([b]) && HasBar([b], b.path)
  {
    assert b in [b];
  }

  lemma KnownKey(o: Option<Node>, q: Path)
    requires q != []
    ensures Known(o, q) ==> q[0] in Keys(o)
  {
  }

  lemma HeadShows(l: Option<Node>, r: Option<Node>, tag: string, path: Path, x: real, y: real)
    requires l.Some? || r.Some?
    ensures Shows(HeadBar(l, r, tag, path, x, y), l, r, tag, path)
  {
    assert path[|path|..] == [];
  }

  /** The layout has exactly one bar for every path of either tree, with the samples and own samples of the nodes
      there on both sides. */
  lemma {:induction false} LayoutDepicts(l: Option<Node>, r: Option<Node>, tag: string, path: Path, x: real, y: real)
    requires l.Some? || r.Some?
    ensures Depicts(Layout(l, r, tag, path, x, y), l, r, tag, path)
    decreases Tall(l) + Tall(r), 1
  {
    hide Depicts, DepictsOver, Shows, Sorted, Layout, LayoutOver, HeadBar;
    var keys := Sorted(Keys(l) + Keys(r));
    LayoutStep(l, r, tag, path, x, y);
    OverDepicts(l, r, keys, path, x, y);
    HeadShows(l, r, tag, path, x, y);
    DepictsHead(l, r, tag, path, HeadBar(l, r, tag, path, x, y), keys, LayoutOver(l, r, keys, path, x, y));
  }

  lemma {:induction false} OverDepicts(l: Option<Node>, r: Option<Node>, keys: seq<string>, path: Path, x: real,
      y: real)
    requires forall k :: k in keys ==> k in Keys(l) + Keys(r)
    requires forall i, j :: 0 <= i < j < |keys| ==> keys[i] != keys[j]
    ensures DepictsOver(LayoutOver(l, r, keys, path, x, y), l, r, keys, path)
    decreases Tall(l) + Tall(r), 0, |keys|
  {
    hide Depicts, DepictsOver, Layout, LayoutOver;
    if keys == [] {
      NothingDepicted(l, r, path);
      OverEnd(l, r, path, x, y);
    } else {
      ChildShorter(l, r, keys[0]);
      OverStep(l, r, keys, path, x, y);
      var lc, rc := ChildOf(l, keys[0]), ChildOf(r, keys[0]);
      LayoutDepicts(lc, rc, keys[0], path + [keys[0]], x, y);
      OverDepicts(l, r, keys[1..], path, x + Sample(lc), y + Sample(rc));
      DepictsStep(l, r, keys, path, Layout(lc, rc, keys[0], path + [keys[0]], x, y),
        LayoutOver(l, r, keys[1..], path, x + Sample(lc), y + Sample(rc)));
    }
  }

  lemma NothingDepicted(l: Option<Node>, r: Option<Node>, path: Path)
    ensures DepictsOver([], l, r, [], path)
  {
  }

  // ---- end to end ----

  /** What a bar says of the two texts: on each side, its width is the sum of the lines through its path and its own
      samples those of the lines that end there. */
  ghost predicate ShowsLines(b: Bar, left: seq<string>, right: seq<string>, number: string -> Option<real>) {
    && (Mentions(left, number, b.path) || Mentions(right, number, b.path))
    && b.leftWidth == LinesUnder(left, number, b.path) && b.leftSelf == LinesAt(left, number, b.path)
    && b.rightWidth == LinesUnder(right, number, b.path) && b.rightSelf == LinesAt(right, number, b.path)
    && b.tag == if b.path == [] then "total" else b.path[|b.path| - 1]
  }

  lemma TreeOfLines(lines: seq<string>, number: string -> Option<real>, q: Path)
    ensures var o := Some(Build(RowsOf(lines, number)));
            && (Known(o, q) <==> Mentions(lines, number, q))
            && SampleOn(o, q) == LinesUnder(lines, number, q)
            && SelfOn(o, q) == LinesAt(lines, number, q)
  {
    hide ParseLine, Build, LinesUnder, LinesAt, PrefixSum, ExactSum, RowsOf, Mentions, Covered, Find;
    var rows := RowsOf(lines, number);
    TreeSamples(rows, q);
    TreeSelf(rows, q);
    RowsSums(lines, number, q);
    RowsKeys(lines, number);
  }

  /** One bar for exactly the paths of the lines. */
  ghost predicate DepictsLines(bars: seq<Bar>, left: seq<string>, right: seq<string>, number: string -> Option<real>) {
    && OncePerPath(bars)
    && (forall b :: b in bars ==> ShowsLines(b, left, right, number))
    && (forall p :: Mentions(left, number, p) || Mentions(right, number, p) ==> HasBar(bars, p))
  }

  ghost function LinesLayout(left: seq<string>, right: seq<string>, number: string -> Option<real>): seq<Bar> {
    Layout(Some(Build(RowsOf(left, number))), Some(Build(RowsOf(right, number))), "total", [], 0.0, 0.0)
  }

  lemma LinesDepicted(left: seq<string>, right: seq<string>, number: string -> Option<real>)
    ensures DepictsLines(LinesLayout(left, right, number), left, right, number)
  {
    hide ParseLine, Build, LinesUnder, LinesAt, RowsOf, Mentions, Known, SampleOn, SelfOn, Layout, OncePerPath, HasBar;
    var l, r := Some(Build(RowsOf(left, number))), Some(Build(RowsOf(right, number)));
    var bars := LinesLayout(left, right, number);
    LayoutDepicts(l, r, "total", [], 0.0, 0.0);
    forall b | b in bars
      ensures ShowsLines(b, left, right, number)
    {
      assert Shows(b, l, r, "total", []) && b.path[0..] == b.path;
      TreeOfLines(left, number, b.path);
      TreeOfLines(right, number, b.path);
    }
    forall p | Mentions(left, number, p) || Mentions(right, number, p)
      ensures HasBar(bars, p)
    {
      TreeOfLines(left, number, p);
      TreeOfLines(right, number, p);
      assert [] + p == p;
    }
  }

  /** Bars of a level apart and bars inside their parents', between the origin and the totals of both texts. */
  ghost predicate PlacedLines(bars: seq<Bar>, left: seq<string>, right: seq<string>, number: string -> Option<real>) {
    Placed(bars, [], 0, 0.0, LinesUnder(left, number, []), 0.0, LinesUnder(right, number, []))
  }

  lemma LinesPlaced(left: seq<string>, right: seq<string>, number: string -> Option<real>)
    requires AllNonNegative(left, number) && AllNonNegative(right, number)
    ensures PlacedLines(LinesLayout(left, right, number), left, right, number)
  {
    hide ParseLine, LinesUnder, RowsOf, Layout, Placed, AllNonNegative, NonNegative;
    RowsKeys(left, number);
    RowsKeys(right, number);
    BuildSound(RowsOf(left, number));
    BuildSound(RowsOf(right, number));
    RootSample(left, number);
    RootSample(right, number);
    LayoutPlaced(Some(Build(RowsOf(left, number))), Some(Build(RowsOf(right, number))), "total", [], 0.0, 0.0);
  }

  lemma RootSample(lines: seq<string>, number: string -> Option<real>)
    ensures Build(RowsOf(lines, number)).sample == LinesUnder(lines, number, [])
  {
    hide ParseLine, LinesUnder, RowsOf;
    TreeOfLines(lines, number, []);
  }

  /** The levels as written: each has non-negative offsets and decodes to the absolute positions of its bars. */
  ghost predicate Decodable(out: Flamebearer)
    reads out
  {
    forall level: nat, i: nat :: level >= 1 && i < |out.LevelCells(level)| ==>
      && out.LevelCells(level)[i].leftOffset >= 0.0 && out.LevelCells(level)[i].rightOffset >= 0.0
      && |OnLevel(out.bars, level)| == |out.LevelCells(level)|
      && DecodeLeft(out.LevelCells(level), i) == OnLevel(out.bars, level)[i].left
      && DecodeRight(out.LevelCells(level), i) == OnLevel(out.bars, level)[i].right
  }

  lemma ValidDecodable(out: Flamebearer, xEnd: real, yEnd: real)
    requires out.Valid() && Placed(out.bars, [], 0, 0.0, xEnd, 0.0, yEnd)
    ensures Decodable(out)
  {
    hide Placed, OnLevel, EncodesLevel;
    forall level: nat, i: nat | level >= 1 && i < |out.LevelCells(level)|
      ensures
        && out.LevelCells(level)[i].leftOffset >= 0.0 && out.LevelCells(level)[i].rightOffset >= 0.0
        && |OnLevel(out.bars, level)| == |out.LevelCells(level)|
        && DecodeLeft(out.LevelCells(level), i) == OnLevel(out.bars, level)[i].left
        && DecodeRight(out.LevelCells(level), i) == OnLevel(out.bars, level)[i].right
    {
      assert out.LevelValid(level);
      OffsetsNonNegative(out.LevelCells(level), out.bars, out.names, level, [], 0, 0.0, xEnd, 0.0, yEnd);
      SameLength(out.LevelCells(level), OnLevel(out.bars, level), out.names);
      LevelDecodes(out.LevelCells(level), OnLevel(out.bars, level), out.names, i);
    }
  }

  lemma LinesDecodable(out: Flamebearer, left: seq<string>, right: seq<string>, number: string -> Option<real>)
    requires out.Valid() && PlacedLines(out.bars, left, right, number)
    ensures Decodable(out)
  {
    ValidDecodable(out, LinesUnder(left, number, []), LinesUnder(right, number, []));
  }

  /** `convert_to_pyroscope_diff`, from the two texts on: one bar for exactly the paths of their lines, with the sums
      of those lines, and the total of both as ticks. Without negative samples the levels decode to the absolute
      positions, no two bars of a level overlap, and every bar lies inside its parent's. */
  method ConvertToDiff(leftText: string, rightText: string, number: string -> Option<real>)
    returns (out: Flamebearer, ticks: real)
    ensures out.Valid() && fresh(out) && out.bars == LinesLayout(Lines(leftText), Lines(rightText), number)
    ensures ticks == LinesUnder(Lines(leftText), number, []) + LinesUnder(Lines(rightText), number, [])
    ensures DepictsLines(out.bars, Lines(leftText), Lines(rightText), number)
    ensures AllNonNegative(Lines(leftText), number) && AllNonNegative(Lines(rightText), number) ==>
      Decodable(out) && PlacedLines(out.bars, Lines(leftText), Lines(rightText), number)
  {
    hide ParseLine, LinesUnder, RowsOf, Layout, Build, Lines, AllNonNegative;
    hide DepictsLines, PlacedLines, Decodable, Flamebearer.Valid;
    ghost var left, right := Lines(leftText), Lines(rightText);
    var leftRows := ParseLinesToRows(leftText, number);
    var rightRows := ParseLinesToRows(rightText, number);
    var leftTree := BuildTreeFromRows(leftRows);
    var rightTree := BuildTreeFromRows(rightRows);
    out := new Flamebearer();
    out.RecDiff(Some(leftTree), Some(rightTree), "total", [], 1, 0.0, 0.0);
    ticks := leftTree.sample + rightTree.sample;
    RootSample(left, number);
    RootSample(right, number);
    assert out.bars == [] + LinesLayout(left, right, number);
    assert out.bars == LinesLayout(left, right, number);
    LinesDepicted(left, right, number);
    if AllNonNegative(left, number) && AllNonNegative(right, number) {
      LinesPlaced(left, right, number);
      LinesDecodable(out, left, right, number);
    }
  }

  lemma SameLength(cells: seq<Cell>, bars: seq<Bar>, names: seq<string>)
    requires EncodesLevel(cells, bars, names)
    ensures |cells| == |bars|
  {
  }
}
