// What the encoder of SLS log groups puts on the wire, byte for byte: the tags of the fields in sls_logs.proto and
// the base-128 lengths, after the Protocol Buffers encoding specification, "Base 128 Varints" and "Length-Delimited
// Records".
module SlsWire {
  import opened Bytes
  import opened Wrappers
  import opened SlsProtobuf

  // ---- varints ----

  /** Seven bits in each byte, the least significant ones first. */
  function Base128(s: seq<byte>): nat {
    if s == [] then 0 else s[0] % 128 + 128 * Base128(s[1..])
  }

  /** The shortest such bytes for a number, all but the last with the high bit set. */
  predicate IsVarint(s: seq<byte>, v: nat) {
    && s != [] && Base128(s) == v
    && (forall i :: 0 <= i < |s| - 1 ==> s[i] >= 128) && s[|s| - 1] < 128
    && (|s| > 1 ==> s[|s| - 1] > 0)
  }

  lemma {:induction false} VarintOnWire(v: nat)
    ensures IsVarint(Varint(v), v)
  {
    if v < 0x80 {
      assert Varint(v) == [v] && [v][1..] == [];
      assert Base128([v]) == v % 128 + 128 * Base128([]);
    } else {
      VarintOnWire(v / 0x80);
      var s, t := Varint(v), Varint(v / 0x80);
      assert s == [v % 0x80 + 0x80] + t && s[1..] == t;
      assert v == v % 0x80 + 0x80 * (v / 0x80);
      assert forall i :: 0 < i < |s| ==> s[i] == t[i - 1];
    }
  }

  /** No other bytes are. */
  lemma {:induction false} VarintUnique(s: seq<byte>, v: nat)
    requires IsVarint(s, v)
    ensures s == Varint(v)
  {
    if |s| == 1 {
      assert s[1..] == [];
      assert Base128(s) == s[0] % 128 + 128 * Base128([]);
    } else {
      var t := s[1..];
      assert Base128(s) == s[0] % 128 + 128 * Base128(t);
      VarintUnique(t, Base128(t));
      PositiveVarint(t);
      assert s == [s[0]] + t;
    }
  }

  lemma {:induction false} PositiveVarint(s: seq<byte>)
    requires s != [] && 0 < s[|s| - 1] < 128
    ensures Base128(s) > 0
  {
    if |s| > 1 {
      PositiveVarint(s[1..]);
    }
  }

  // ---- fields ----

  /** A length-delimited field whose tag takes one byte. */
  function Delimited(tag: byte, bytes: seq<byte>): seq<byte> { [tag] + Varint(|bytes|) + bytes }

  /** The tag of a field of type string, bytes or message: its number, and wire type 2 in the low three bits. */
  lemma TagOnWire(field: nat, bytes: seq<byte>)
    requires field < 16
    ensures LenDelim(field, bytes) == Delimited(8 * field + 2, bytes)
  {
  }

  /** A short field has a length of one byte. */
  lemma ShortOnWire(tag: byte, bytes: seq<byte>)
    requires |bytes| < 128
    ensures Delimited(tag, bytes) == [tag, |bytes|] + bytes
  {
    assert [tag] + [|bytes|] == [tag, |bytes|];
  }

  /** A content, or a tag of the group: its key as field 1 and its value as field 2. */
  lemma PairOnWire(p: KeyValue)
    ensures EncodePair(p) == Delimited(0x0A, p.key) + Delimited(0x12, p.value)
    ensures |p.key| < 128 && |p.value| < 128 ==>
      EncodePair(p) == [0x0A, |p.key|] + p.key + ([0x12, |p.value|] + p.value)
  {
    TagOnWire(1, p.key);
    TagOnWire(2, p.value);
    if |p.key| < 128 && |p.value| < 128 {
      ShortOnWire(0x0A, p.key);
      ShortOnWire(0x12, p.value);
    }
  }

  function Joined(parts: seq<seq<byte>>): seq<byte> {
    if parts == [] then [] else parts[0] + Joined(parts[1..])
  }

  /** Pairs, and logs, as fields with the same tag, in order. */
  function PairFields(tag: byte, ps: seq<KeyValue>): seq<seq<byte>> {
    seq(|ps|, i requires 0 <= i < |ps| => Delimited(tag, EncodePair(ps[i])))
  }

  function LogFields(ls: seq<LogEntry>): seq<seq<byte>> {
    seq(|ls|, i requires 0 <= i < |ls| => Delimited(0x0A, EncodeLog(ls[i])))
  }

  lemma {:induction false} PairsOnWire(field: nat, ps: seq<KeyValue>)
    requires field < 16
    ensures EncodePairs(field, ps) == Joined(PairFields(8 * field + 2, ps))
  {
    hide EncodePair, Delimited, LenDelim;
    if ps != [] {
      PairsOnWire(field, ps[1..]);
      TagOnWire(field, EncodePair(ps[0]));
      assert PairFields(8 * field + 2, ps)[1..] == PairFields(8 * field + 2, ps[1..]);
    }
  }

  /** A log: its time as field 1, a varint, and each content as field 2. */
  lemma LogOnWire(l: LogEntry)
    ensures EncodeLog(l) == [0x08] + Varint(l.time) + Joined(PairFields(0x12, l.contents))
  {
    hide EncodePairs, Joined, PairFields;
    PairsOnWire(2, l.contents);
    assert Varint(8) == [0x08];
  }

  lemma {:induction false} LogsOnWire(ls: seq<LogEntry>)
    ensures EncodeLogs(ls) == Joined(LogFields(ls))
  {
    hide EncodeLog, Delimited, LenDelim;
    if ls != [] {
      LogsOnWire(ls[1..]);
      TagOnWire(1, EncodeLog(ls[0]));
      assert LogFields(ls)[1..] == LogFields(ls[1..]);
    }
  }

  /** A group: each log as field 1, the topic as field 3, the source as field 4 and each tag as field 6. */
  lemma GroupOnWire(g: LogGroup)
    ensures EncodeGroup(g) ==
      Joined(LogFields(g.logs))
      + (if g.topic.Some? then Delimited(0x1A, g.topic.value) else [])
      + (if g.source.Some? then Delimited(0x22, g.source.value) else [])
      + Joined(PairFields(0x32, g.tags))
  {
    hide EncodeLogs, EncodePairs, LenDelim, Delimited, Joined, LogFields, PairFields;
    LogsOnWire(g.logs);
    PairsOnWire(6, g.tags);
    if g.topic.Some? {
      TagOnWire(3, g.topic.value);
    }
    if g.source.Some? {
      TagOnWire(4, g.source.value);
    }
  }

  /** The smallest group with a content, in full. */
  lemma SmallGroupOnWire(p: KeyValue)
    requires p.key == [0x6B] && p.value == [0x76]
    ensures EncodeGroup(LogGroup([LogEntry(0, [p])], None, None, [])) ==
      [0x0A, 0x0A, 0x08, 0x00, 0x12, 0x06, 0x0A, 0x01, 0x6B, 0x12, 0x01, 0x76]
  {
    var l := LogEntry(0, [p]);
    PairOnWire(p);
    assert EncodePair(p) == [0x0A, 0x01, 0x6B, 0x12, 0x01, 0x76];
    SmallLog(l, p);
    GroupOnWire(LogGroup([l], None, None, []));
    ShortOnWire(0x0A, EncodeLog(l));
    hide EncodeLog, EncodePair, Delimited;
    JoinedOne(Delimited(0x0A, EncodeLog(l)));
    assert LogFields([l]) == [Delimited(0x0A, EncodeLog(l))];
    assert PairFields(0x32, []) == [];
  }

  lemma SmallLog(l: LogEntry, p: KeyValue)
    requires l == LogEntry(0, [p]) && EncodePair(p) == [0x0A, 0x01, 0x6B, 0x12, 0x01, 0x76]
    ensures EncodeLog(l) == [0x08, 0x00, 0x12, 0x06, 0x0A, 0x01, 0x6B, 0x12, 0x01, 0x76]
  {
    hide EncodePair;
    LogOnWire(l);
    ShortOnWire(0x12, EncodePair(p));
    JoinedOne(Delimited(0x12, EncodePair(p)));
    assert PairFields(0x12, l.contents) == [Delimited(0x12, EncodePair(p))];
    assert Varint(0) == [0];
  }

  lemma JoinedOne(part: seq<byte>)
    ensures Joined([part]) == part
  {
    assert [part][1..] == [];
  }

  // ---- what the decoder refuses ----

  /** A group may begin with these fields only. */
  lemma OtherFieldsRefused(tag: byte, rest: seq<byte>)
    requires tag < 0x80 && tag !in {0x0A, 0x1A, 0x22, 0x32}
    ensures ParseGroup([tag] + rest) == None
  {
    var buf := [tag] + rest;
    hide ParseLog, ParsePair, ValidUtf8;
    assert DecodeVarint(buf) == Some((tag, 1)) by {
      assert Shl64(tag, 0) == tag;
    }
    hide DecodeVarint, DecodeLen;
  }

  /** Neither a tag that is cut off, nor one that does not end within ten bytes, is taken for one. */
  lemma UnfinishedRefused(buf: seq<byte>)
    requires buf != [] && forall i :: 0 <= i < |buf| ==> buf[i] >= 0x80
    ensures ParseGroup(buf) == None
  {
    NeverEnds(buf, 0, 0, 0);
    hide DecodeFrom;
  }

  lemma {:induction false} NeverEnds(buf: seq<byte>, i: nat, value: nat, shift: nat)
    requires i <= |buf| && forall k :: 0 <= k < |buf| ==> buf[k] >= 0x80
    ensures DecodeFrom(buf, i, value, shift) == None
    decreases |buf| - i
  {
    if i < |buf| && shift + 7 < 64 {
      NeverEnds(buf, i + 1, value + Shl64(buf[i] % 0x80, shift), shift + 7);
    }
  }

  // ---- texts ----

  /** A Unicode scalar value. */
  type Scalar = c: int | 0 <= c < 0xD800 || 0xE000 <= c < 0x11_0000

  /** Its bytes, after section 3 of RFC 3629. */
  function Utf8(c: Scalar): seq<byte> {
    if c < 0x80 then [c]
    else if c < 0x800 then [0xC0 + c / 0x40, 0x80 + c % 0x40]
    else if c < 0x1_0000 then [0xE0 + c / 0x1000, 0x80 + c / 0x40 % 0x40, 0x80 + c % 0x40]
    else [0xF0 + c / 0x4_0000, 0x80 + c / 0x1000 % 0x40, 0x80 + c / 0x40 % 0x40, 0x80 + c % 0x40]
  }

  function Utf8s(cs: seq<Scalar>): seq<byte> {
    if cs == [] then [] else Utf8(cs[0]) + Utf8s(cs[1..])
  }

  /** The bytes of characters are a text. */
  lemma {:induction false} Utf8Valid(cs: seq<Scalar>)
    ensures ValidUtf8(Utf8s(cs))
  {
    if cs != [] {
      Utf8Valid(cs[1..]);
      OneValid(cs[0], Utf8s(cs[1..]));
    }
  }

  lemma OneValid(c: Scalar, s: seq<byte>)
    requires ValidUtf8(s)
    ensures ValidUtf8(Utf8(c) + s)
  {
    var t := Utf8(c) + s;
    assert t[|Utf8(c)|..] == s;
  }

  /** And every text is the bytes of characters. */
  lemma {:induction false} ValidIsUtf8(s: seq<byte>) returns (cs: seq<Scalar>)
    requires ValidUtf8(s)
    ensures Utf8s(cs) == s
    decreases |s|
  {
    if s == [] {
      cs := [];
    } else {
      var c, n := FirstScalar(s);
      var rest := ValidIsUtf8(s[n..]);
      cs := [c] + rest;
      assert cs[1..] == rest;
      assert s == s[..n] + s[n..];
    }
  }

  lemma FirstScalar(s: seq<byte>) returns (c: Scalar, n: nat)
    requires s != [] && ValidUtf8(s)
    ensures 0 < n <= |s| && Utf8(c) == s[..n] && ValidUtf8(s[n..])
  {
    if s[0] < 0x80 {
      c, n := s[0], 1;
    } else if s[0] < 0xE0 {
      c := TwoBytes(s[0], s[1]);
      n := 2;
    } else if s[0] < 0xF0 {
      c := ThreeBytes(s[0], s[1], s[2]);
      n := 3;
    } else {
      c := FourBytes(s[0], s[1], s[2], s[3]);
      n := 4;
    }
  }

  lemma TwoBytes(a: int, b: int) returns (c: Scalar)
    requires 0xC2 <= a < 0xE0 && 0x80 <= b < 0xC0
    ensures Utf8(c) == [a, b]
  {
    c := 0x40 * (a - 0xC0) + (b - 0x80);
    Digits(a - 0xC0, b - 0x80);
  }

  lemma ThreeBytes(a: int, b: int, d: int) returns (c: Scalar)
    requires 0xE0 <= a < 0xF0 && 0x80 <= b < 0xC0 && 0x80 <= d < 0xC0
    requires (a == 0xE0 ==> b >= 0xA0) && (a == 0xED ==> b < 0xA0)
    ensures Utf8(c) == [a, b, d]
  {
    var high := 0x40 * (a - 0xE0) + (b - 0x80);
    Digits(a - 0xE0, b - 0x80);
    Digits(high, d - 0x80);
    c := 0x40 * high + (d - 0x80);
    assert c / 0x1000 == c / 0x40 / 0x40;
  }

  lemma FourBytes(a: int, b: int, d: int, e: int) returns (c: Scalar)
    requires 0xF0 <= a <= 0xF4 && 0x80 <= b < 0xC0 && 0x80 <= d < 0xC0 && 0x80 <= e < 0xC0
    requires (a == 0xF0 ==> b >= 0x90) && (a == 0xF4 ==> b < 0x90)
    ensures Utf8(c) == [a, b, d, e]
  {
    var high := 0x40 * (a - 0xF0) + (b - 0x80);
    var middle := 0x40 * high + (d - 0x80);
    Digits(a - 0xF0, b - 0x80);
    Digits(high, d - 0x80);
    Digits(middle, e - 0x80);
    c := 0x40 * middle + (e - 0x80);
    assert c / 0x1000 == c / 0x40 / 0x40 && c / 0x4_0000 == c / 0x1000 / 0x40;
  }

  lemma Digits(high: nat, low: nat)
    requires low < 0x40
    ensures (0x40 * high + low) / 0x40 == high && (0x40 * high + low) % 0x40 == low
  {
  }
}
