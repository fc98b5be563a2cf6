// Folded stacks and the call-stack trie built from them (server/dashboard/flamegraph.py).
module FlameTrie {
  import opened Wrappers

  /** A node of the call-stack tree: the samples of itself and its subtree, and its children by symbol. */
  datatype Node = Node(sample: real, children: map<string, Node>)

  const EMPTY_NODE := Node(0.0, map[])

  type Path = seq<string>

  /** One entry of the rows dictionary, in the dictionary's order. */
  datatype Row = Row(symbols: string, sample: real)

  // ---- splitting strings ----

  /** `str.split` at one character. */
  function SplitOn(s: string, sep: char): (p: seq<string>)
    ensures p != []
  {
    if s == [] then [""]
    else
      var rest := SplitOn(s[1..], sep);
      if s[0] == sep then [""] + rest else [[s[0]] + rest[0]] + rest[1..]
  }

  function JoinOn(p: seq<string>, sep: char): string {
    if p == [] then "" else if |p| == 1 then p[0] else p[0] + [sep] + JoinOn(p[1..], sep)
  }

  function Lines(text: string): seq<string> { SplitOn(text, '\n') }

  /** `symbol_path.split(';')`. */
  function Split(s: string): (p: Path)
    ensures p != []
  {
    SplitOn(s, ';')
  }

  lemma JoinCons(a: string, q: seq<string>, sep: char)
    ensures JoinOn([a] + q, sep) == if q == [] then a else a + [sep] + JoinOn(q, sep)
  {
  }

  lemma SplitStep(s: string, sep: char)
    requires s != []
    ensures var rest := SplitOn(s[1..], sep);
            rest != [] && SplitOn(s, sep) == if s[0] == sep then [""] + rest else [[s[0]] + rest[0]] + rest[1..]
  {
  }

  /** Splitting loses nothing, so two rows with the same path are the same row. */
  lemma {:induction false} JoinSplit(s: string, sep: char)
    ensures JoinOn(SplitOn(s, sep), sep) == s
  {
    hide JoinOn, SplitOn;
    if s == [] {
      NothingSplit(sep);
    } else {
      JoinSplit(s[1..], sep);
      SplitStep(s, sep);
      var rest := SplitOn(s[1..], sep);
      if s[0] == sep {
        JoinCons("", rest, sep);
        assert s == "" + [sep] + s[1..];
      } else {
        JoinMore(s[0], rest, sep);
        assert s == [s[0]] + s[1..];
      }
    }
  }

  lemma NothingSplit(sep: char)
    ensures JoinOn(SplitOn([], sep), sep) == []
  {
  }

  lemma JoinMore(c: char, rest: seq<string>, sep: char)
    requires rest != []
    ensures JoinOn([[c] + rest[0]] + rest[1..], sep) == [c] + JoinOn(rest, sep)
  {
    hide JoinOn;
    JoinCons([c] + rest[0], rest[1..], sep);
    JoinCons(rest[0], rest[1..], sep);
    assert [rest[0]] + rest[1..] == rest;
    assert [c] + rest[0] + [sep] + JoinOn(rest[1..], sep) == [c] + (rest[0] + [sep] + JoinOn(rest[1..], sep));
  }

  // ---- text to rows ----

  /** What `str.isspace` takes for white space. */
  predicate Blank(c: char) {
    || '\U{0009}' <= c <= '\U{000D}' || '\U{001C}' <= c <= ' ' || '\U{2000}' <= c <= '\U{200A}'
    || c in "\U{0085}\U{00A0}\U{1680}\U{2028}\U{2029}\U{202F}\U{205F}\U{3000}"
  }

  /** `str.strip`. */
  function Strip(s: string): string
    decreases |s|
  {
    if s != [] && Blank(s[0]) then Strip(s[1..])
    else if s != [] && Blank(s[|s| - 1]) then Strip(s[..|s| - 1])
    else s
  }

  /** `str.rsplit(' ', 1)`, when there is a blank to split at. */
  function SplitLast(s: string): Option<(string, string)> {
    if s == [] then None
    else if s[|s| - 1] == ' ' then Some((s[..|s| - 1], ""))
    else
      match SplitLast(s[..|s| - 1])
      case None => None
      case Some((left, right)) => Some((left, right + [s[|s| - 1]]))
  }

  /** The path and the sample of one line; `number` is the conversion of the sample's text, which can fail. */
  function ParseLine(line: string, number: string -> Option<real>): Option<(string, real)> {
    match SplitLast(Strip(line))
    case None => None
    case Some((symbols, text)) =>
      match number(text)
      case None => None
      case Some(n) => Some((symbols, n))
  }

  /** `rows[symbols] = rows.get(symbols, 0) + sample` on a dictionary that keeps its order of insertion. */
  function Upsert(rows: seq<Row>, symbols: string, sample: real): seq<Row> {
    if rows == [] then [Row(symbols, sample)]
    else if rows[0].symbols == symbols then [Row(symbols, rows[0].sample + sample)] + rows[1..]
    else [rows[0]] + Upsert(rows[1..], symbols, sample)
  }

  function RowsOf(lines: seq<string>, number: string -> Option<real>): seq<Row> {
    if lines == [] then []
    else
      var rows := RowsOf(lines[..|lines| - 1], number);
      match ParseLine(lines[|lines| - 1], number)
      case None => rows
      case Some((symbols, sample)) => Upsert(rows, symbols, sample)
  }

  method ParseLinesToRows(text: string, number: string -> Option<real>) returns (rows: seq<Row>)
    ensures rows == RowsOf(Lines(text), number)
  {
    hide ParseLine, Upsert;
    var lines := Lines(text);
    rows := [];
    for i := 0 to |lines|
      invariant rows == RowsOf(lines[..i], number)
    {
      assert lines[..i + 1][..i] == lines[..i];
      var parsed := ParseLine(lines[i], number);
      if parsed.Some? {
        var (symbols, sample) := parsed.value;
        rows := Upsert(rows, symbols, sample);
      }
    }
    assert lines[..|lines|] == lines;
  }

  // ---- the tree ----

  function Child(n: Node, symbol: string): Node {
    if symbol in n.children then n.children[symbol] else EMPTY_NODE
  }

  /** `_add_line_to_tree` from one node on: every node along the path adds the sample. */
  function AddPath(n: Node, p: Path, sample: real): Node
    decreases |p|
  {
    var m := n.(sample := n.sample + sample);
    if p == [] then m
    else m.(children := m.children[p[0] := AddPath(Child(n, p[0]), p[1..], sample)])
  }

  function Build(rows: seq<Row>): Node {
    if rows == [] then EMPTY_NODE
    else AddPath(Build(rows[..|rows| - 1]), Split(rows[|rows| - 1].symbols), rows[|rows| - 1].sample)
  }

  method BuildTreeFromRows(rows: seq<Row>) returns (root: Node)
    ensures root == Build(rows)
  {
    root := EMPTY_NODE;
    for i := 0 to |rows|
      invariant root == Build(rows[..i])
    {
      assert rows[..i + 1][..i] == rows[..i];
      root := AddPath(root, Split(rows[i].symbols), rows[i].sample);
    }
    assert rows[..|rows|] == rows;
  }

  /** The node a path leads to, if there is one. */
  function Find(n: Node, p: Path): Option<Node> {
    if p == [] then Some(n)
    else if p[0] in n.children then Find(n.children[p[0]], p[1..])
    else None
  }

  function SampleAt(n: Node, p: Path): real {
    var found := Find(n, p);
    if found.Some? then found.value.sample else 0.0
  }

  /** The samples of a set of children. */
  ghost function SumOf(m: map<string, Node>, keys: set<string>): real
    requires keys <= m.Keys
    decreases keys
  {
    if keys == {} then 0.0
    else
      var k :| k in keys;
      m[k].sample + SumOf(m, keys - {k})
  }

  ghost function SumChildren(n: Node): real { SumOf(n.children, n.children.Keys) }

  /** `_calc_self_sample`. */
  ghost function SelfSample(n: Node): real { n.sample - SumChildren(n) }

  lemma {:induction false} SumOfAny(m: map<string, Node>, keys: set<string>, k: string)
    requires keys <= m.Keys && k in keys
    ensures SumOf(m, keys) == m[k].sample + SumOf(m, keys - {k})
    decreases keys
  {
    var j :| j in keys && SumOf(m, keys) == m[j].sample + SumOf(m, keys - {j});
    if j != k {
      SumOfAny(m, keys - {j}, k);
      SumOfAny(m, keys - {k}, j);
      assert keys - {j} - {k} == keys - {k} - {j};
    }
  }

  lemma {:induction false} SumOfSame(m: map<string, Node>, m': map<string, Node>, keys: set<string>)
    requires keys <= m.Keys && keys <= m'.Keys
    requires forall k :: k in keys ==> m[k].sample == m'[k].sample
    ensures SumOf(m, keys) == SumOf(m', keys)
    decreases keys
  {
    if keys != {} {
      var k :| k in keys;
      SumOfAny(m, keys, k);
      SumOfAny(m', keys, k);
      SumOfSame(m, m', keys - {k});
    }
  }

  method CalcSumChildren(n: Node) returns (total: real)
    ensures total == SumChildren(n)
  {
    var todo := n.children.Keys;
    total := 0.0;
    while todo != {}
      invariant todo <= n.children.Keys && total + SumOf(n.children, todo) == SumChildren(n)
      decreases todo
    {
      var k :| k in todo;
      SumOfAny(n.children, todo, k);
      total := total + n.children[k].sample;
      todo := todo - {k};
    }
  }

  ghost function SelfAt(n: Node, p: Path): real {
    var found := Find(n, p);
    if found.Some? then SelfSample(found.value) else 0.0
  }

  // ---- the sums ----

  /** The rows at or below a path, and the rows exactly at it. */
  function PrefixSum(rows: seq<Row>, p: Path): real {
    if rows == [] then 0.0
    else
      var last := rows[|rows| - 1];
      PrefixSum(rows[..|rows| - 1], p) + (if p <= Split(last.symbols) then last.sample else 0.0)
  }

  function ExactSum(rows: seq<Row>, p: Path): real {
    if rows == [] then 0.0
    else
      var last := rows[|rows| - 1];
      ExactSum(rows[..|rows| - 1], p) + (if p == Split(last.symbols) then last.sample else 0.0)
  }

  predicate Covered(rows: seq<Row>, p: Path) {
    p == [] || exists i :: 0 <= i < |rows| && p <= Split(rows[i].symbols)
  }

  lemma {:induction false} AddPathSample(n: Node, q: Path, s: real, p: Path)
    ensures SampleAt(AddPath(n, q, s), p) == SampleAt(n, p) + (if p <= q then s else 0.0)
    ensures Find(AddPath(n, q, s), p).Some? <==> Find(n, p).Some? || p <= q
    decreases |p|
  {
    if p != [] && q != [] && p[0] == q[0] {
      AddPathSample(Child(n, q[0]), q[1..], s, p[1..]);
      assert p <= q <==> p[1..] <= q[1..];
      if q[0] !in n.children {
        assert p[1..] == [] || Find(EMPTY_NODE, p[1..]) == None;
      }
    }
  }

  lemma ChildSumAfter(n: Node, k: string, c: Node)
    ensures SumOf(n.children[k := c], n.children.Keys + {k}) == SumChildren(n) - Child(n, k).sample + c.sample
  {
    var m, m' := n.children, n.children[k := c];
    SumOfAny(m', m.Keys + {k}, k);
    SumOfSame(m, m', m.Keys - {k});
    assert m.Keys + {k} - {k} == m.Keys - {k};
    if k in m {
      SumOfAny(m, m.Keys, k);
    } else {
      assert m.Keys - {k} == m.Keys;
    }
  }

  // A sample on its way to a deeper node leaves a node's own samples as they are.
  lemma AddPathSelf(n: Node, q: Path, s: real)
    ensures SelfSample(AddPath(n, q, s)) == SelfSample(n) + (if q == [] then s else 0.0)
  {
    if q != [] {
      var c := AddPath(Child(n, q[0]), q[1..], s);
      ChildSumAfter(n, q[0], c);
      assert n.children[q[0] := c].Keys == n.children.Keys + {q[0]};
    }
  }

  lemma {:induction false} AddPathSelfAt(n: Node, q: Path, s: real, p: Path)
    ensures SelfAt(AddPath(n, q, s), p) == SelfAt(n, p) + (if p == q then s else 0.0)
    decreases |p|
  {
    hide SelfSample;
    if p == [] {
      AddPathSelf(n, q, s);
    } else if q != [] && p[0] == q[0] {
      AddPathSelfAt(Child(n, q[0]), q[1..], s, p[1..]);
      assert p == q <==> p[1..] == q[1..];
      if q[0] !in n.children {
        EmptySelf(p[1..]);
      }
    }
  }

  lemma EmptySelf(p: Path)
    ensures SelfAt(EMPTY_NODE, p) == 0.0
  {
  }

  /** Every node carries the samples of exactly the rows whose path runs through it, and there is a node
      for exactly the paths some row runs through. */
  lemma {:induction false} TreeSamples(rows: seq<Row>, p: Path)
    ensures SampleAt(Build(rows), p) == PrefixSum(rows, p)
    ensures Find(Build(rows), p).Some? <==> Covered(rows, p)
  {
    if rows != [] {
      var front, last := rows[..|rows| - 1], rows[|rows| - 1];
      TreeSamples(front, p);
      AddPathSample(Build(front), Split(last.symbols), last.sample, p);
      assert forall i :: 0 <= i < |front| ==> front[i] == rows[i];
    }
  }

  /** A node's own samples are those of the rows exactly at its path. */
  lemma {:induction false} TreeSelf(rows: seq<Row>, p: Path)
    ensures SelfAt(Build(rows), p) == ExactSum(rows, p)
  {
    if rows == [] {
      EmptySelf(p);
    } else {
      var front, last := rows[..|rows| - 1], rows[|rows| - 1];
      TreeSelf(front, p);
      AddPathSelfAt(Build(front), Split(last.symbols), last.sample, p);
    }
  }

  /** No dictionary has a key twice. */
  predicate Distinct(rows: seq<Row>) {
    forall i, j :: 0 <= i < j < |rows| ==> rows[i].symbols != rows[j].symbols
  }

  lemma {:induction false} ExactSumRow(rows: seq<Row>, i: nat)
    requires Distinct(rows) && i < |rows|
    ensures ExactSum(rows, Split(rows[i].symbols)) == rows[i].sample
  {
    var front, last := rows[..|rows| - 1], rows[|rows| - 1];
    var p := Split(rows[i].symbols);
    JoinSplit(rows[i].symbols, ';');
    JoinSplit(last.symbols, ';');
    if i == |front| {
      ExactSumNone(front, rows[i].symbols);
    } else {
      ExactSumRow(front, i);
    }
  }

  lemma {:induction false} ExactSumNone(rows: seq<Row>, symbols: string)
    requires forall i :: 0 <= i < |rows| ==> rows[i].symbols != symbols
    ensures ExactSum(rows, Split(symbols)) == 0.0
  {
    if rows != [] {
      JoinSplit(symbols, ';');
      JoinSplit(rows[|rows| - 1].symbols, ';');
      ExactSumNone(rows[..|rows| - 1], symbols);
    }
  }

  /** The own samples of the node a row leads to are that row's sample. */
  lemma RowSelf(rows: seq<Row>, i: nat)
    requires Distinct(rows) && i < |rows|
    ensures SelfAt(Build(rows), Split(rows[i].symbols)) == rows[i].sample
  {
    TreeSelf(rows, Split(rows[i].symbols));
    ExactSumRow(rows, i);
  }

  /** The root has no samples of its own. */
  lemma RootSelf(rows: seq<Row>)
    ensures SelfSample(Build(rows)) == 0.0
  {
    TreeSelf(rows, []);
    NoEmptyPath(rows);
    assert Find(Build(rows), []) == Some(Build(rows));
  }

  lemma {:induction false} NoEmptyPath(rows: seq<Row>)
    ensures ExactSum(rows, []) == 0.0
  {
    if rows != [] {
      NoEmptyPath(rows[..|rows| - 1]);
    }
  }

  /** With non-negative rows, every node has non-negative samples and own samples. */
  ghost predicate Sound(n: Node) {
    n.sample >= 0.0 && SelfSample(n) >= 0.0 && forall k :: k in n.children ==> Sound(n.children[k])
  }

  lemma {:induction false} AddPathSound(n: Node, q: Path, s: real)
    requires Sound(n) && s >= 0.0
    ensures Sound(AddPath(n, q, s))
    decreases |q|
  {
    AddPathSelf(n, q, s);
    EmptySound();
    hide SelfSample;
    if q != [] {
      AddPathSound(Child(n, q[0]), q[1..], s);
    }
  }

  lemma EmptySound()
    ensures Sound(EMPTY_NODE)
  {
  }

  lemma {:induction false} BuildSound(rows: seq<Row>)
    requires NonNegative(rows)
    ensures Sound(Build(rows))
  {
    if rows == [] {
      EmptySound();
    } else {
      BuildSound(rows[..|rows| - 1]);
      AddPathSound(Build(rows[..|rows| - 1]), Split(rows[|rows| - 1].symbols), rows[|rows| - 1].sample);
    }
  }

  // ---- from the lines ----

  /** The samples of the lines at or below a path, and of those exactly at it. */
  function LinesUnder(lines: seq<string>, number: string -> Option<real>, p: Path): real {
    if lines == [] then 0.0
    else
      var rest := LinesUnder(lines[..|lines| - 1], number, p);
      match ParseLine(lines[|lines| - 1], number)
      case None => rest
      case Some((symbols, sample)) => rest + (if p <= Split(symbols) then sample else 0.0)
  }

  function LinesAt(lines: seq<string>, number: string -> Option<real>, p: Path): real {
    if lines == [] then 0.0
    else
      var rest := LinesAt(lines[..|lines| - 1], number, p);
      match ParseLine(lines[|lines| - 1], number)
      case None => rest
      case Some((symbols, sample)) => rest + (if p == Split(symbols) then sample else 0.0)
  }

  /** The path is empty, or some line that has a sample goes through it. */
  predicate Mentions(lines: seq<string>, number: string -> Option<real>, p: Path) {
    if lines == [] then p == []
    else
      || Mentions(lines[..|lines| - 1], number, p)
      || (var parsed := ParseLine(lines[|lines| - 1], number); parsed.Some? && p <= Split(parsed.value.0))
  }

  lemma {:induction false} SumsCons(r: Row, rows: seq<Row>, p: Path)
    ensures PrefixSum([r] + rows, p) == (if p <= Split(r.symbols) then r.sample else 0.0) + PrefixSum(rows, p)
    ensures ExactSum([r] + rows, p) == (if p == Split(r.symbols) then r.sample else 0.0) + ExactSum(rows, p)
  {
    hide Split;
    if rows == [] {
      assert [r] + rows == [r] && [r][..0] == [];
    } else {
      assert ([r] + rows)[..|rows|] == [r] + rows[..|rows| - 1];
      SumsCons(r, rows[..|rows| - 1], p);
    }
  }

  /** A sample added to the dictionary is added to the sums over it. */
  lemma {:induction false} UpsertSums(rows: seq<Row>, symbols: string, sample: real, p: Path)
    ensures PrefixSum(Upsert(rows, symbols, sample), p) ==
        PrefixSum(rows, p) + (if p <= Split(symbols) then sample else 0.0)
    ensures ExactSum(Upsert(rows, symbols, sample), p) ==
        ExactSum(rows, p) + (if p == Split(symbols) then sample else 0.0)
  {
    hide Split, PrefixSum, ExactSum;
    NoSums(p);
    if rows == [] {
      SumsCons(Row(symbols, sample), [], p);
      assert [Row(symbols, sample)] + [] == [Row(symbols, sample)];
    } else {
      assert rows == [rows[0]] + rows[1..];
      SumsCons(rows[0], rows[1..], p);
      if rows[0].symbols == symbols {
        SumsCons(Row(symbols, rows[0].sample + sample), rows[1..], p);
      } else {
        UpsertSums(rows[1..], symbols, sample, p);
        SumsCons(rows[0], Upsert(rows[1..], symbols, sample), p);
      }
    }
  }

  lemma NoSums(p: Path)
    ensures PrefixSum([], p) == 0.0 == ExactSum([], p)
  {
  }

  /** The dictionary sums up the lines: those through a path, and those exactly at it. */
  lemma {:induction false} RowsSums(lines: seq<string>, number: string -> Option<real>, p: Path)
    ensures PrefixSum(RowsOf(lines, number), p) == LinesUnder(lines, number, p)
    ensures ExactSum(RowsOf(lines, number), p) == LinesAt(lines, number, p)
  {
    hide ParseLine, Upsert, PrefixSum, ExactSum, Split;
    NoSums(p);
    if lines != [] {
      var front := lines[..|lines| - 1];
      RowsSums(front, number, p);
      var parsed := ParseLine(lines[|lines| - 1], number);
      if parsed.Some? {
        UpsertSums(RowsOf(front, number), parsed.value.0, parsed.value.1, p);
      }
    }
  }

  lemma {:induction false} UpsertHas(rows: seq<Row>, symbols: string, sample: real, s: string)
    ensures HasKey(Upsert(rows, symbols, sample), s) <==> HasKey(rows, s) || s == symbols
  {
    hide HasKey;
    NoKey(s);
    if rows == [] {
      HasCons(Row(symbols, sample), [], s);
      assert [Row(symbols, sample)] + [] == [Row(symbols, sample)];
    } else {
      assert rows == [rows[0]] + rows[1..];
      HasCons(rows[0], rows[1..], s);
      if rows[0].symbols == symbols {
        HasCons(Row(symbols, rows[0].sample + sample), rows[1..], s);
      } else {
        UpsertHas(rows[1..], symbols, sample, s);
        HasCons(rows[0], Upsert(rows[1..], symbols, sample), s);
      }
    }
  }

  lemma {:induction false} UpsertKeys(rows: seq<Row>, symbols: string, sample: real)
    ensures var rows' := Upsert(rows, symbols, sample);
            && (Distinct(rows) ==> Distinct(rows'))
            && (sample >= 0.0 && NonNegative(rows) ==> NonNegative(rows'))
  {
    hide HasKey, Distinct, NonNegative;
    if rows == [] {
      NoKey(symbols);
      KeysCons(Row(symbols, sample), []);
      assert [Row(symbols, sample)] + [] == [Row(symbols, sample)];
    } else {
      UpsertKeys(rows[1..], symbols, sample);
      KeysCons(rows[0], rows[1..]);
      assert rows == [rows[0]] + rows[1..];
      if rows[0].symbols == symbols {
        KeysCons(Row(symbols, rows[0].sample + sample), rows[1..]);
      } else {
        UpsertHas(rows[1..], symbols, sample, rows[0].symbols);
        KeysCons(rows[0], Upsert(rows[1..], symbols, sample));
      }
    }
  }

  predicate HasKey(rows: seq<Row>, symbols: string) {
    exists r :: r in rows && r.symbols == symbols
  }

  predicate NonNegative(rows: seq<Row>) {
    forall r :: r in rows ==> r.sample >= 0.0
  }

  lemma NoKey(s: string)
    ensures !HasKey([], s) && Distinct([]) && NonNegative([])
  {
  }

  lemma HasCons(r: Row, rows: seq<Row>, s: string)
    ensures HasKey([r] + rows, s) <==> r.symbols == s || HasKey(rows, s)
  {
    var all := [r] + rows;
    assert forall x :: x in all <==> x == r || x in rows;
  }

  lemma KeysCons(r: Row, rows: seq<Row>)
    ensures Distinct([r] + rows) <==> Distinct(rows) && !HasKey(rows, r.symbols)
    ensures NonNegative([r] + rows) <==> r.sample >= 0.0 && NonNegative(rows)
  {
    var all := [r] + rows;
    assert forall x :: x in all <==> x == r || x in rows;
    assert forall i :: 0 <= i < |rows| ==> all[i + 1] == rows[i];
    assert forall i :: 0 < i < |all| ==> all[i] == rows[i - 1];
    if Distinct(all) {
      forall x | x in rows
        ensures x.symbols != r.symbols
      {
        var i :| 0 <= i < |rows| && rows[i] == x;
        assert all[0] == r && all[i + 1] == x;
      }
    }
  }

  /** No line gives a negative sample. */
  predicate AllNonNegative(lines: seq<string>, number: string -> Option<real>) {
    forall i :: 0 <= i < |lines| ==>
      var parsed := ParseLine(lines[i], number); parsed.Some? ==> parsed.value.1 >= 0.0
  }

  lemma CoveredByKeys(rows: seq<Row>, p: Path)
    ensures Covered(rows, p) <==> p == [] || exists s :: HasKey(rows, s) && p <= Split(s)
  {
    hide Split;
    if i :| 0 <= i < |rows| && p <= Split(rows[i].symbols) {
      assert rows[i] in rows && HasKey(rows, rows[i].symbols);
    }
    if s :| HasKey(rows, s) && p <= Split(s) {
      var r :| r in rows && r.symbols == s;
      var i :| 0 <= i < |rows| && rows[i] == r;
    }
  }

  lemma UpsertCovers(rows: seq<Row>, symbols: string, sample: real, p: Path)
    ensures Covered(Upsert(rows, symbols, sample), p) <==> Covered(rows, p) || p <= Split(symbols)
  {
    hide Split, Upsert, HasKey, Covered;
    var rows' := Upsert(rows, symbols, sample);
    CoveredByKeys(rows, p);
    CoveredByKeys(rows', p);
    UpsertHas(rows, symbols, sample, symbols);
    if s :| HasKey(rows, s) && p <= Split(s) {
      UpsertHas(rows, symbols, sample, s);
      assert HasKey(rows', s);
    }
    if s :| HasKey(rows', s) && p <= Split(s) {
      UpsertHas(rows, symbols, sample, s);
    }
  }

  /** The dictionary has each key once, keys for exactly the paths of the lines, and no negative sample if no line
      has one. */
  lemma {:induction false} RowsKeys(lines: seq<string>, number: string -> Option<real>)
    ensures Distinct(RowsOf(lines, number))
    ensures AllNonNegative(lines, number) ==> NonNegative(RowsOf(lines, number))
    ensures forall p :: Covered(RowsOf(lines, number), p) <==> Mentions(lines, number, p)
  {
    hide ParseLine, Upsert, Split;
    if lines == [] {
    } else {
      var front := lines[..|lines| - 1];
      RowsKeys(front, number);
      var parsed := ParseLine(lines[|lines| - 1], number);
      if parsed.Some? {
        var (symbols, sample) := parsed.value;
        UpsertKeys(RowsOf(front, number), symbols, sample);
        forall p
          ensures Covered(RowsOf(lines, number), p) <==> Mentions(lines, number, p)
        {
          UpsertCovers(RowsOf(front, number), symbols, sample, p);
        }
      }
    }
  }

  // ---- own samples over the whole tree ----

  ghost function TotalSelf(n: Node): real
    decreases n, 1
  {
    SelfSample(n) + TotalOver(n, n.children.Keys)
  }

  ghost function TotalOver(n: Node, keys: set<string>): real
    requires keys <= n.children.Keys
    decreases n, 0, keys
  {
    if keys == {} then 0.0
    else
      var k :| k in keys;
      TotalSelf(n.children[k]) + TotalOver(n, keys - {k})
  }

  /** The own samples over a tree add up to the samples of its root: none is counted twice or lost. */
  lemma {:induction false} SelfConserved(n: Node)
    ensures TotalSelf(n) == n.sample
    decreases n, 1
  {
    OverConserved(n, n.children.Keys);
  }

  lemma {:induction false} OverConserved(n: Node, keys: set<string>)
    requires keys <= n.children.Keys
    ensures TotalOver(n, keys) == SumOf(n.children, keys)
    decreases n, 0, keys
  {
    if keys != {} {
      var k :| k in keys && TotalOver(n, keys) == TotalSelf(n.children[k]) + TotalOver(n, keys - {k});
      SelfConserved(n.children[k]);
      OverConserved(n, keys - {k});
      SumOfAny(n.children, keys, k);
    }
  }
}
