// What the text of folded stacks means: a line "main;inner 3" is three samples of the call path main, inner.
module FoldedStacks {
  import opened Wrappers
  import opened FlameTrie
  import opened FlameDiff
  import opened FlamePositions
  import StringOrder

  /** A line of the text: a call path, the text of its sample and the number that is, and white space around them. */
  datatype Stack = Stack(before: string, path: Path, sample: string, after: string, value: real)

  /** The code points that Python takes for white space. */
  predicate Space(c: char) {
    c as int in {0x09, 0x0A, 0x0B, 0x0C, 0x0D, 0x1C, 0x1D, 0x1E, 0x1F, 0x20, 0x85, 0xA0, 0x1680,
                 0x2000, 0x2001, 0x2002, 0x2003, 0x2004, 0x2005, 0x2006, 0x2007, 0x2008, 0x2009, 0x200A,
                 0x2028, 0x2029, 0x202F, 0x205F, 0x3000}
  }

  lemma BlankIsSpace(c: char)
    ensures Blank(c) <==> Space(c)
  {
  }

  function Symbols(p: Path): string {
    if p == [] then "" else if |p| == 1 then p[0] else p[0] + ";" + Symbols(p[1..])
  }

  function LineOf(s: Stack): string { s.before + (Symbols(s.path) + " " + s.sample) + s.after }

  /** Symbols hold no semicolon and no line break, but may hold blanks; the path does not begin with white space. */
  predicate WellFormed(s: Stack, number: string -> Option<real>) {
    && s.path != [] && (forall k :: k in s.path ==> ';' !in k && '\n' !in k)
    && Symbols(s.path) != "" && !Space(Symbols(s.path)[0])
    && s.sample != "" && (forall c :: c in s.sample ==> !Space(c)) && number(s.sample) == Some(s.value)
    && (forall c :: c in s.before + s.after ==> Space(c) && c != '\n')
  }

  function TextOf(lines: seq<string>): string {
    if lines == [] then "" else if |lines| == 1 then lines[0] else lines[0] + "\n" + TextOf(lines[1..])
  }

  // ---- one line ----

  lemma {:induction false} SplitPart(k: string, rest: string, sep: char)
    requires sep !in k
    ensures SplitOn(k + [sep] + rest, sep) == [k] + SplitOn(rest, sep)
  {
    hide SplitOn;
    var s := k + [sep] + rest;
    SplitStep(s, sep);
    if k == [] {
      assert s == [sep] + rest && s[1..] == rest;
    } else {
      assert s[1..] == k[1..] + [sep] + rest && s[0] == k[0];
      SplitPart(k[1..], rest, sep);
      assert [k[0]] + k[1..] == k;
    }
  }

  lemma {:induction false} SplitWhole(k: string, sep: char)
    requires sep !in k
    ensures SplitOn(k, sep) == [k]
  {
    if k != [] {
      SplitWhole(k[1..], sep);
      SplitStep(k, sep);
      assert [k[0]] + k[1..] == k;
    }
  }

  /** A path comes back from its symbols joined by semicolons. */
  lemma {:induction false} SymbolsSplit(p: Path)
    requires p != [] && forall k :: k in p ==> ';' !in k
    ensures Split(Symbols(p)) == p
  {
    if |p| == 1 {
      SplitWhole(p[0], ';');
    } else {
      SplitPart(p[0], Symbols(p[1..]), ';');
      SymbolsSplit(p[1..]);
      assert p == [p[0]] + p[1..];
    }
  }

  /** And so do lines from a text. */
  lemma {:induction false} LinesOfText(lines: seq<string>)
    requires lines != [] && forall l :: l in lines ==> '\n' !in l
    ensures Lines(TextOf(lines)) == lines
  {
    if |lines| == 1 {
      SplitWhole(lines[0], '\n');
    } else {
      SplitPart(lines[0], TextOf(lines[1..]), '\n');
      LinesOfText(lines[1..]);
      assert lines == [lines[0]] + lines[1..];
    }
  }

  /** White space around a line does not count. */
  lemma {:induction false} StripPadded(before: string, s: string, after: string)
    requires s != "" && !Blank(s[0]) && !Blank(s[|s| - 1])
    requires forall c :: c in before + after ==> Blank(c)
    ensures Strip(before + s + after) == s
    decreases |before| + |after|
  {
    var line := before + s + after;
    if before != "" {
      assert before[0] in before + after && line[0] == before[0];
      assert line[1..] == before[1..] + s + after;
      assert forall c :: c in before[1..] + after ==> c in before + after;
      StripPadded(before[1..], s, after);
    } else if after != "" {
      var n := |after| - 1;
      assert after[n] in before + after && line[|line| - 1] == after[n];
      assert line[0] == s[0];
      assert line[..|line| - 1] == before + s + after[..n];
      assert forall c :: c in before + after[..n] ==> c in before + after;
      StripPadded(before, s, after[..n]);
    } else {
      assert line == s;
    }
  }

  /** The last blank divides a line. */
  lemma {:induction false} DividedAtLast(symbols: string, sample: string)
    requires ' ' !in sample
    ensures SplitLast(symbols + " " + sample) == Some((symbols, sample))
  {
    var s := symbols + " " + sample;
    if sample == "" {
      assert s[..|s| - 1] == symbols;
    } else {
      var n := |sample| - 1;
      assert s[..|s| - 1] == symbols + " " + sample[..n] && s[|s| - 1] == sample[n];
      DividedAtLast(symbols, sample[..n]);
      assert sample[..n] + [sample[n]] == sample;
    }
  }

  lemma {:induction false} Undivided(s: string)
    requires ' ' !in s
    ensures SplitLast(s) == None
  {
    if s != "" {
      Undivided(s[..|s| - 1]);
    }
  }

  lemma LineParsed(s: Stack, number: string -> Option<real>)
    requires WellFormed(s, number)
    ensures ParseLine(LineOf(s), number) == Some((Symbols(s.path), s.value))
    ensures Split(Symbols(s.path)) == s.path
  {
    var text := Symbols(s.path) + " " + s.sample;
    assert text[0] == Symbols(s.path)[0] && text[|text| - 1] == s.sample[|s.sample| - 1];
    BlankIsSpace(text[0]);
    BlankIsSpace(text[|text| - 1]);
    forall c | c in s.before + s.after
      ensures Blank(c)
    {
      BlankIsSpace(c);
    }
    StripPadded(s.before, text, s.after);
    DividedAtLast(Symbols(s.path), s.sample);
    SymbolsSplit(s.path);
  }

  /** A line without a blank inside, or whose last part is no number, is skipped. */
  lemma OtherLines(before: string, s: string, after: string, number: string -> Option<real>)
    requires forall c :: c in before + after ==> Space(c)
    requires s != "" && !Space(s[0]) && !Space(s[|s| - 1])
    requires ' ' !in s || exists a, t :: s == a + " " + t && ' ' !in t && number(t) == None
    ensures ParseLine(before + s + after, number) == None
  {
    forall c | c in before + after
      ensures Blank(c)
    {
      BlankIsSpace(c);
    }
    BlankIsSpace(s[0]);
    BlankIsSpace(s[|s| - 1]);
    StripPadded(before, s, after);
    if ' ' !in s {
      Undivided(s);
    } else {
      var a, t :| s == a + " " + t && ' ' !in t && number(t) == None;
      DividedAtLast(a, t);
    }
  }

  // ---- a text ----

  function LinesOf(stacks: seq<Stack>): seq<string> {
    seq(|stacks|, i requires 0 <= i < |stacks| => LineOf(stacks[i]))
  }

  /** The samples of the stacks whose path goes through `q`, and of those whose path it is. */
  function Under(stacks: seq<Stack>, q: Path): real {
    if stacks == [] then 0.0
    else Under(stacks[..|stacks| - 1], q) + (if q <= stacks[|stacks| - 1].path then stacks[|stacks| - 1].value else 0.0)
  }

  function At(stacks: seq<Stack>, q: Path): real {
    if stacks == [] then 0.0
    else At(stacks[..|stacks| - 1], q) + (if q == stacks[|stacks| - 1].path then stacks[|stacks| - 1].value else 0.0)
  }

  /** The samples of the stacks that branch off before `q`: where the paths differ first, they have a smaller symbol. */
  function BranchedBefore(stacks: seq<Stack>, q: Path): real {
    if stacks == [] then 0.0
    else
      var last := stacks[|stacks| - 1];
      BranchedBefore(stacks[..|stacks| - 1], q) + (if Precedes(last.path, q) then last.value else 0.0)
  }

  predicate Through(stacks: seq<Stack>, q: Path) {
    q == [] || exists i :: 0 <= i < |stacks| && q <= stacks[i].path
  }

  ghost predicate AllWellFormed(stacks: seq<Stack>, number: string -> Option<real>) {
    forall i :: 0 <= i < |stacks| ==> WellFormed(stacks[i], number)
  }

  /** What the lines say at a path is what the stacks are there. */
  lemma {:induction false} StacksMean(stacks: seq<Stack>, number: string -> Option<real>, q: Path)
    requires AllWellFormed(stacks, number)
    ensures LinesUnder(LinesOf(stacks), number, q) == Under(stacks, q)
    ensures LinesAt(LinesOf(stacks), number, q) == At(stacks, q)
    ensures BeforeLines(LinesOf(stacks), number, q) == BranchedBefore(stacks, q)
    ensures Mentions(LinesOf(stacks), number, q) <==> Through(stacks, q)
  {
    hide WellFormed, LineOf, ParseLine, Split, Symbols, Precedes, Through;
    NoneThrough(q);
    if stacks != [] {
      var n := |stacks| - 1;
      StacksMean(stacks[..n], number, q);
      LineParsed(stacks[n], number);
      assert LinesOf(stacks)[..n] == LinesOf(stacks[..n]);
      ThroughMore(stacks, q);
    }
  }

  lemma NoneThrough(q: Path)
    ensures Through([], q) <==> q == []
  {
  }

  lemma ThroughMore(stacks: seq<Stack>, q: Path)
    requires stacks != []
    ensures var n := |stacks| - 1; Through(stacks, q) <==> Through(stacks[..n], q) || q <= stacks[n].path
  {
    var n := |stacks| - 1;
    assert forall i :: 0 <= i < n ==> stacks[..n][i] == stacks[i];
  }

  lemma LineUnbroken(s: Stack, number: string -> Option<real>)
    requires WellFormed(s, number)
    ensures '\n' !in LineOf(s)
  {
    SymbolsUnbroken(s.path);
    assert Space('\n');
    forall c | c in LineOf(s)
      ensures c != '\n'
    {
      assert c in s.before + s.after || c in Symbols(s.path) || c == ' ' || c in s.sample;
    }
  }

  lemma {:induction false} SymbolsUnbroken(p: Path)
    requires forall k :: k in p ==> '\n' !in k
    ensures '\n' !in Symbols(p)
  {
    if |p| > 1 {
      SymbolsUnbroken(p[1..]);
    }
  }

  lemma LinesOfStacks(stacks: seq<Stack>, number: string -> Option<real>)
    requires stacks != [] && AllWellFormed(stacks, number)
    ensures Lines(TextOf(LinesOf(stacks))) == LinesOf(stacks)
  {
    hide WellFormed, LineOf, Lines, TextOf;
    forall l | l in LinesOf(stacks)
      ensures '\n' !in l
    {
      var i :| 0 <= i < |stacks| && LineOf(stacks[i]) == l;
      LineUnbroken(stacks[i], number);
    }
    LinesOfText(LinesOf(stacks));
  }

  // ---- from texts to the flame graph ----

  /** A bar shows, on each side, the samples of the stacks through its path and of those that end there, and lies
      behind those that branch off before it. */
  ghost predicate ShowsStacks(b: Bar, left: seq<Stack>, right: seq<Stack>) {
    && (Through(left, b.path) || Through(right, b.path)) && b.level == |b.path| + 1
    && b.left == BranchedBefore(left, b.path) && b.right == BranchedBefore(right, b.path)
    && b.leftWidth == Under(left, b.path) && b.leftSelf == At(left, b.path)
    && b.rightWidth == Under(right, b.path) && b.rightSelf == At(right, b.path)
    && b.tag == if b.path == [] then "total" else b.path[|b.path| - 1]
  }

  /** A cell has the seven numbers of its bar, its offsets from the end of the bar before. */
  ghost predicate CellOf(c: Cell, bars: seq<Bar>, i: nat, names: seq<string>)
    requires i < |bars|
  {
    var b := bars[i];
    && c.leftWidth == b.leftWidth && c.leftSelf == b.leftSelf
    && c.rightWidth == b.rightWidth && c.rightSelf == b.rightSelf
    && c.name < |names| && names[c.name] == b.tag
    && (if i == 0 then c.leftOffset == b.left && c.rightOffset == b.right
        else
          && c.leftOffset == b.left - (bars[i - 1].left + bars[i - 1].leftWidth)
          && c.rightOffset == b.right - (bars[i - 1].right + bars[i - 1].rightWidth))
  }

  ghost predicate CellsOf(cells: seq<Cell>, bars: seq<Bar>, names: seq<string>) {
    |cells| == |bars| && forall i :: 0 <= i < |cells| ==> CellOf(cells[i], bars, i, names)
  }

  /** From two texts of folded stacks: one bar for exactly the paths of their stacks and the beginnings of these, in
      order, written level by level; the greatest own sample; and the samples of both texts as ticks. */
  method DiffOfStacks(left: seq<Stack>, right: seq<Stack>, number: string -> Option<real>)
    returns (out: Flamebearer, ticks: real)
    requires left != [] && AllWellFormed(left, number) && right != [] && AllWellFormed(right, number)
    ensures forall b :: b in out.bars ==> ShowsStacks(b, left, right)
    ensures forall p :: Through(left, p) || Through(right, p) ==> exists b :: b in out.bars && b.path == p
    ensures forall i, j :: 0 <= i < j < |out.bars| ==> out.bars[i].path != out.bars[j].path
    ensures InOrder(out.bars)
    ensures forall level: nat :: level >= 1 ==> CellsOf(out.LevelCells(level), OnLevel(out.bars, level), out.names)
    ensures out.maxSelf >= 0.0 && forall b :: b in out.bars ==> b.leftSelf <= out.maxSelf && b.rightSelf <= out.maxSelf
    ensures out.maxSelf == 0.0 || exists b :: b in out.bars && out.maxSelf in {b.leftSelf, b.rightSelf}
    ensures ticks == Under(left, []) + Under(right, [])
  {
    hide WellFormed, AllWellFormed, Mentions, LinesUnder, LinesAt, Under, At, Through, Lines, TextOf, LinesOf;
    hide BranchedBefore, BeforeLines, InOrder, LinesLayout, OnLevel, MaxSelf, CellOf;
    out, ticks := ConvertToDiff(TextOf(LinesOf(left)), TextOf(LinesOf(right)), number);
    LinesOfStacks(left, number);
    LinesOfStacks(right, number);
    LinesPositions(LinesOf(left), LinesOf(right), number);
    LevelsOf(LinesOf(left), LinesOf(right), number);
    StacksMean(left, number, []);
    StacksMean(right, number, []);
    forall b | b in out.bars
      ensures ShowsStacks(b, left, right)
    {
      StacksMean(left, number, b.path);
      StacksMean(right, number, b.path);
    }
    forall p | Through(left, p) || Through(right, p)
      ensures exists b :: b in out.bars && b.path == p
    {
      StacksMean(left, number, p);
      StacksMean(right, number, p);
      assert HasBar(out.bars, p);
    }
    forall level: nat | level >= 1
      ensures CellsOf(out.LevelCells(level), OnLevel(out.bars, level), out.names)
    {
      assert out.LevelValid(level);
      CellsAre(out.LevelCells(level), OnLevel(out.bars, level), out.names);
    }
    MaxSelfIs(out.bars);
  }

  lemma CellsAre(cells: seq<Cell>, bars: seq<Bar>, names: seq<string>)
    requires EncodesLevel(cells, bars, names)
    ensures CellsOf(cells, bars, names)
  {
    forall i | 0 <= i < |cells|
      ensures CellOf(cells[i], bars, i, names)
    {
      assert Encodes(cells[i], bars, i, names);
    }
  }

  lemma {:induction false} MaxSelfIs(bars: seq<Bar>)
    ensures MaxSelf(bars) >= 0.0
    ensures forall b :: b in bars ==> b.leftSelf <= MaxSelf(bars) && b.rightSelf <= MaxSelf(bars)
    ensures MaxSelf(bars) == 0.0 || exists b :: b in bars && MaxSelf(bars) in {b.leftSelf, b.rightSelf}
  {
    if bars != [] {
      var n := |bars| - 1;
      MaxSelfIs(bars[..n]);
      assert bars == bars[..n] + [bars[n]];
      if MaxSelf(bars) == MaxSelf(bars[..n]) && MaxSelf(bars) != 0.0 {
        var b :| b in bars[..n] && MaxSelf(bars[..n]) in {b.leftSelf, b.rightSelf};
        assert b in bars;
      }
    }
  }

  // The level of every bar of the layout is one more than the length of its path.
  lemma LevelsOf(left: seq<string>, right: seq<string>, number: string -> Option<real>)
    ensures forall b :: b in LinesLayout(left, right, number) ==> b.level == |b.path| + 1
  {
    LayoutLevels(Some(Build(RowsOf(left, number))), Some(Build(RowsOf(right, number))), "total", [], 0.0, 0.0);
  }

  lemma {:induction false} LayoutLevels(
    l: Option<Node>, r: Option<Node>, tag: string, path: Path, x: real, y: real)
    ensures forall b :: b in Layout(l, r, tag, path, x, y) ==> b.level == |b.path| + 1
    decreases Tall(l) + Tall(r), 1
  {
    hide Layout, LayoutOver, HeadBar;
    LayoutStep(l, r, tag, path, x, y);
    OverLevels(l, r, StringOrder.Sorted(Keys(l) + Keys(r)), path, x, y);
  }

  lemma {:induction false} OverLevels(
    l: Option<Node>, r: Option<Node>, keys: seq<string>, path: Path, x: real, y: real)
    requires forall k :: k in keys ==> k in Keys(l) + Keys(r)
    ensures forall b :: b in LayoutOver(l, r, keys, path, x, y) ==> b.level == |b.path| + 1
    decreases Tall(l) + Tall(r), 0, |keys|
  {
    hide Layout, LayoutOver, Sample;
    if keys == [] {
      OverEnd(l, r, path, x, y);
    } else {
      ChildShorter(l, r, keys[0]);
      OverStep(l, r, keys, path, x, y);
      var lc, rc := ChildOf(l, keys[0]), ChildOf(r, keys[0]);
      LayoutLevels(lc, rc, keys[0], path + [keys[0]], x, y);
      OverLevels(l, r, keys[1..], path, x + Sample(lc), y + Sample(rc));
    }
  }

  /** Two stacks that share their first call. */
  lemma SmallText(number: string -> Option<real>)
    requires number("3") == Some(3.0) && number("4") == Some(4.0)
    ensures var lines := Lines("main;foo 3\nmain;b c 4");
            && LinesUnder(lines, number, ["main"]) == 7.0 && LinesUnder(lines, number, ["main", "b c"]) == 4.0
            && LinesUnder(lines, number, ["main;foo"]) == 0.0 && LinesAt(lines, number, ["main", "foo"]) == 3.0
  {
    hide WellFormed, LinesUnder, LinesAt, LinesOf, LineOf, Lines, Under, At, Mentions, Through;
    var stacks := [Stack("", ["main", "foo"], "3", "", 3.0), Stack("", ["main", "b c"], "4", "", 4.0)];
    SmallStack("foo", "3", 3.0, number);
    SmallStack("b c", "4", 4.0, number);
    LinesOfStacks(stacks, number);
    SmallLines(stacks);
    SmallSums(stacks[0], stacks[1]);
    StacksMean(stacks, number, ["main"]);
    StacksMean(stacks, number, ["main", "b c"]);
    StacksMean(stacks, number, ["main;foo"]);
    StacksMean(stacks, number, ["main", "foo"]);
  }

  lemma SmallStack(leaf: string, sample: string, value: real, number: string -> Option<real>)
    requires (leaf == "foo" && sample == "3") || (leaf == "b c" && sample == "4")
    requires number(sample) == Some(value)
    ensures WellFormed(Stack("", ["main", leaf], sample, "", value), number)
    ensures LineOf(Stack("", ["main", leaf], sample, "", value)) == "main;" + leaf + " " + sample
  {
    assert Symbols([leaf]) == leaf;
    assert Symbols(["main", leaf]) == "main" + ";" + leaf == "main;" + leaf;
  }

  lemma SmallLines(stacks: seq<Stack>)
    requires |stacks| == 2 && LineOf(stacks[0]) == "main;" + "foo" + " " + "3"
    requires LineOf(stacks[1]) == "main;" + "b c" + " " + "4"
    ensures TextOf(LinesOf(stacks)) == "main;foo 3\nmain;b c 4"
  {
    hide LineOf;
    assert "main;" + "foo" + " " + "3" == "main;foo 3" && "main;" + "b c" + " " + "4" == "main;b c 4";
    assert LinesOf(stacks) == ["main;foo 3", "main;b c 4"];
    assert TextOf(["main;b c 4"]) == "main;b c 4";
  }

  lemma SmallSums(a: Stack, b: Stack)
    requires a.path == ["main", "foo"] && a.value == 3.0 && b.path == ["main", "b c"] && b.value == 4.0
    ensures Under([a, b], ["main"]) == 7.0 && Under([a, b], ["main", "b c"]) == 4.0
    ensures Under([a, b], ["main;foo"]) == 0.0 && At([a, b], ["main", "foo"]) == 3.0
  {
    assert ["main;foo"][0] != a.path[0] && ["main", "b c"][1] != a.path[1] && ["main", "foo"][1] != b.path[1];
    SumsOfTwo(a, b, ["main"]);
    SumsOfTwo(a, b, ["main", "b c"]);
    SumsOfTwo(a, b, ["main;foo"]);
    SumsOfTwo(a, b, ["main", "foo"]);
  }

  lemma SumsOfTwo(a: Stack, b: Stack, q: Path)
    ensures Under([a, b], q) == (if q <= a.path then a.value else 0.0) + (if q <= b.path then b.value else 0.0)
    ensures At([a, b], q) == (if q == a.path then a.value else 0.0) + (if q == b.path then b.value else 0.0)
  {
    assert [a, b][..1] == [a] && [a][..0] == [];
    assert Under([a], q) == Under([], q) + (if q <= a.path then a.value else 0.0);
    assert At([a], q) == At([], q) + (if q == a.path then a.value else 0.0);
  }
}
