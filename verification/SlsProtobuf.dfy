// The hand-written Protocol Buffers encoder for SLS log groups and the decoder that inverts it
// (slsrs/src/protobuf.rs). It follows the sections "Base 128 Varints" and "Length-Delimited
// Records" of the Protocol Buffers encoding specification.
module SlsProtobuf {
  import opened Bytes
  import opened Wrappers

  const U64 := 0x1_0000_0000_0000_0000

  type u32 = x: int | 0 <= x < U32

  predicate Continuation(b: byte) { 0x80 <= b < 0xC0 }

  /** Well-formed UTF-8, after section 4 of RFC 3629. */
  predicate ValidUtf8(s: seq<byte>)
    decreases |s|
  {
    if s == [] then true
    else if s[0] < 0x80 then ValidUtf8(s[1..])
    else if 0xC2 <= s[0] < 0xE0 then |s| >= 2 && Continuation(s[1]) && ValidUtf8(s[2..])
    else if 0xE0 <= s[0] < 0xF0 then
      && |s| >= 3 && Continuation(s[1]) && Continuation(s[2])
      && (s[0] == 0xE0 ==> s[1] >= 0xA0) && (s[0] == 0xED ==> s[1] < 0xA0)
      && ValidUtf8(s[3..])
    else if 0xF0 <= s[0] <= 0xF4 then
      && |s| >= 4 && Continuation(s[1]) && Continuation(s[2]) && Continuation(s[3])
      && (s[0] == 0xF0 ==> s[1] >= 0x90) && (s[0] == 0xF4 ==> s[1] < 0x90)
      && ValidUtf8(s[4..])
    else false
  }

  /** A string, as its bytes. */
  type Text = s: seq<byte> | ValidUtf8(s) witness []

  // LogContent and LogTag have the same fields, and the same encoding and decoding.
  datatype KeyValue = KeyValue(key: Text, value: Text)

  datatype LogEntry = LogEntry(time: u32, contents: seq<KeyValue>)

  datatype LogGroup = LogGroup(logs: seq<LogEntry>, topic: Option<Text>, source: Option<Text>, tags: seq<KeyValue>)

  const WIRE_VARINT := 0
  const WIRE_LEN := 2
  const EMPTY_GROUP := LogGroup([], None, None, [])

  // ---- encoding ----

  function Varint(v: nat): (s: seq<byte>)
    ensures |s| >= 1
  {
    if v < 0x80 then [v] else [v % 0x80 + 0x80] + Varint(v / 0x80)
  }

  /** `(v as u8) | 0x80`. */
  function LowByteMarked(v: nat): (b: byte)
    ensures b == v % 0x80 + 0x80
  {
    var low := v % 0x100;
    assert v == 0x80 * (2 * (v / 0x100)) + low;
    if low < 0x80 then low + 0x80 else low
  }

  method WriteVarint(buf: seq<byte>, value: nat) returns (out: seq<byte>)
    ensures out == buf + Varint(value)
  {
    out := buf;
    var v := value;
    while v >= 0x80
      invariant out + Varint(v) == buf + Varint(value)
    {
      out := out + [LowByteMarked(v)];
      v := v / 0x80;
    }
    out := out + [v];
  }

  function LenDelim(field: nat, bytes: seq<byte>): seq<byte> {
    Varint(field * 8 + WIRE_LEN) + Varint(|bytes|) + bytes
  }

  method WriteLenDelim(buf: seq<byte>, field: nat, bytes: seq<byte>) returns (out: seq<byte>)
    ensures out == buf + LenDelim(field, bytes)
  {
    out := WriteVarint(buf, field * 8 + WIRE_LEN);
    out := WriteVarint(out, |bytes|);
    out := out + bytes;
  }

  function EncodePair(p: KeyValue): seq<byte> {
    LenDelim(1, p.key) + LenDelim(2, p.value)
  }

  function EncodePairs(field: nat, ps: seq<KeyValue>): seq<byte> {
    if ps == [] then [] else LenDelim(field, EncodePair(ps[0])) + EncodePairs(field, ps[1..])
  }

  function EncodeLog(l: LogEntry): seq<byte> {
    Varint(1 * 8 + WIRE_VARINT) + Varint(l.time) + EncodePairs(2, l.contents)
  }

  function EncodeLogs(ls: seq<LogEntry>): seq<byte> {
    if ls == [] then [] else LenDelim(1, EncodeLog(ls[0])) + EncodeLogs(ls[1..])
  }

  function EncodeText(field: nat, t: Option<Text>): seq<byte> {
    if t.Some? then LenDelim(field, t.value) else []
  }

  function EncodeGroup(g: LogGroup): seq<byte> {
    EncodeLogs(g.logs) + EncodeText(3, g.topic) + EncodeText(4, g.source) + EncodePairs(6, g.tags)
  }

  method EncodePairBytes(p: KeyValue) returns (buf: seq<byte>)
    ensures buf == EncodePair(p)
  {
    buf := WriteLenDelim([], 1, p.key);
    buf := WriteLenDelim(buf, 2, p.value);
  }

  // The loop over contents, and the one over tags.
  method WritePairs(buf: seq<byte>, field: nat, ps: seq<KeyValue>) returns (out: seq<byte>)
    ensures out == buf + EncodePairs(field, ps)
  {
    hide LenDelim;
    out := buf;
    assert ps[0..] == ps;
    for i := 0 to |ps|
      invariant out + EncodePairs(field, ps[i..]) == buf + EncodePairs(field, ps)
    {
      assert ps[i..][1..] == ps[i + 1..];
      var bytes := EncodePairBytes(ps[i]);
      out := WriteLenDelim(out, field, bytes);
    }
  }

  method EncodeLogBytes(l: LogEntry) returns (buf: seq<byte>)
    ensures buf == EncodeLog(l)
  {
    buf := WriteVarint([], 1 * 8 + WIRE_VARINT);
    buf := WriteVarint(buf, l.time);
    buf := WritePairs(buf, 2, l.contents);
  }

  method EncodeLogGroup(g: LogGroup) returns (buf: seq<byte>)
    ensures buf == EncodeGroup(g)
  {
    hide LenDelim;
    buf := [];
    assert g.logs[0..] == g.logs;
    for i := 0 to |g.logs|
      invariant buf + EncodeLogs(g.logs[i..]) == EncodeLogs(g.logs)
    {
      assert g.logs[i..][1..] == g.logs[i + 1..];
      var bytes := EncodeLogBytes(g.logs[i]);
      buf := WriteLenDelim(buf, 1, bytes);
    }
    if g.topic.Some? {
      buf := WriteLenDelim(buf, 3, g.topic.value);
    }
    if g.source.Some? {
      buf := WriteLenDelim(buf, 4, g.source.value);
    }
    buf := WritePairs(buf, 6, g.tags);
  }

  // ---- decoding ----

  function Pow2(n: nat): (p: nat)
    ensures p >= 1
  {
    if n == 0 then 1 else 2 * Pow2(n - 1)
  }

  /** `(x as u64) << shift`, which drops the bits beyond the 64th. */
  function Shl64(x: nat, shift: nat): nat {
    (x * Pow2(shift)) % U64
  }

  /** The decoder's loop from its `i`-th byte on. `value` is below 2 to the `shift` there, so or-ing in
      the next seven bits is adding them. */
  function DecodeFrom(buf: seq<byte>, i: nat, value: nat, shift: nat): (r: Option<(nat, nat)>)
    requires i <= |buf|
    ensures r.Some? ==> i < r.value.1 <= |buf|
    decreases |buf| - i
  {
    if i == |buf| then None
    else
      var v := value + Shl64(buf[i] % 0x80, shift);
      if buf[i] < 0x80 then Some((v, i + 1))
      else if shift + 7 >= 64 then None
      else DecodeFrom(buf, i + 1, v, shift + 7)
  }

  function DecodeVarint(buf: seq<byte>): (r: Option<(nat, nat)>)
    ensures r.Some? ==> 0 < r.value.1 <= |buf|
  {
    DecodeFrom(buf, 0, 0, 0)
  }

  method ReadVarint(buf: seq<byte>) returns (r: Option<(nat, nat)>)
    ensures r == DecodeVarint(buf)
  {
    var value: nat, shift: nat := 0, 0;
    for i := 0 to |buf|
      invariant DecodeFrom(buf, i, value, shift) == DecodeVarint(buf)
    {
      value := value + Shl64(buf[i] % 0x80, shift);
      if buf[i] < 0x80 {
        return Some((value, i + 1));
      }
      shift := shift + 7;
      if shift >= 64 {
        return None;
      }
    }
    return None;
  }

  function DecodeLen(buf: seq<byte>): (r: Option<(seq<byte>, nat)>)
    ensures r.Some? ==> 0 < r.value.1 <= |buf|
  {
    match DecodeVarint(buf)
    case None => None
    case Some((len, consumed)) =>
      if consumed + len > |buf| then None else Some((buf[consumed..consumed + len], consumed + len))
  }

  datatype Field = VarintField(number: nat, value: nat, used: nat) | LenField(number: nat, bytes: seq<byte>, used: nat)

  /** The tag and the payload at the front of a message. Every parser rejects wire types other than these two. */
  function NextField(buf: seq<byte>): (r: Option<Field>)
    ensures r.Some? ==> 0 < r.value.used <= |buf|
  {
    match DecodeVarint(buf)
    case None => None
    case Some((tag, c)) =>
      var number := (tag / 8) % U32;
      if tag % 8 == WIRE_VARINT then
        match DecodeVarint(buf[c..])
        case None => None
        case Some((v, n)) => Some(VarintField(number, v, c + n))
      else if tag % 8 == WIRE_LEN then
        match DecodeLen(buf[c..])
        case None => None
        case Some((bytes, n)) => Some(LenField(number, bytes, c + n))
      else None
  }

  function ParsePairFrom(buf: seq<byte>, p: KeyValue): Option<KeyValue>
    decreases |buf|
  {
    if buf == [] then Some(p)
    else
      match NextField(buf)
      case Some(LenField(1, bytes, used)) =>
        if ValidUtf8(bytes) then ParsePairFrom(buf[used..], p.(key := bytes)) else None
      case Some(LenField(2, bytes, used)) =>
        if ValidUtf8(bytes) then ParsePairFrom(buf[used..], p.(value := bytes)) else None
      case _ => None
  }

  function ParsePair(buf: seq<byte>): Option<KeyValue> {
    ParsePairFrom(buf, KeyValue([], []))
  }

  function ParseLogFrom(buf: seq<byte>, l: LogEntry): Option<LogEntry>
    decreases |buf|
  {
    if buf == [] then Some(l)
    else
      match NextField(buf)
      case Some(VarintField(1, v, used)) => ParseLogFrom(buf[used..], l.(time := v % U32))
      case Some(LenField(2, bytes, used)) =>
        (match ParsePair(bytes)
         case None => None
         case Some(p) => ParseLogFrom(buf[used..], l.(contents := l.contents + [p])))
      case _ => None
  }

  function ParseLog(buf: seq<byte>): Option<LogEntry> {
    ParseLogFrom(buf, LogEntry(0, []))
  }

  /** What one field of a log group adds to it, if it is one. */
  function AddField(f: Field, g: LogGroup): Option<LogGroup> {
    match f
    case LenField(1, bytes, _) =>
      (match ParseLog(bytes)
       case None => None
       case Some(l) => Some(g.(logs := g.logs + [l])))
    case LenField(3, bytes, _) => if ValidUtf8(bytes) then Some(g.(topic := Some(bytes))) else None
    case LenField(4, bytes, _) => if ValidUtf8(bytes) then Some(g.(source := Some(bytes))) else None
    case LenField(6, bytes, _) =>
      (match ParsePair(bytes)
       case None => None
       case Some(p) => Some(g.(tags := g.tags + [p])))
    case _ => None
  }

  function ParseGroupFrom(buf: seq<byte>, g: LogGroup): Option<LogGroup>
    decreases |buf|
  {
    if buf == [] then Some(g)
    else
      match NextField(buf)
      case None => None
      case Some(f) =>
        match AddField(f, g)
        case None => None
        case Some(g') => ParseGroupFrom(buf[f.used..], g')
  }

  function ParseGroup(buf: seq<byte>): Option<LogGroup> {
    ParseGroupFrom(buf, EMPTY_GROUP)
  }

  method ParseLogGroup(input: seq<byte>) returns (r: Option<LogGroup>)
    ensures r == ParseGroup(input)
  {
    hide NextField, AddField;
    var buf, group := input, EMPTY_GROUP;
    while buf != []
      invariant ParseGroupFrom(buf, group) == ParseGroup(input)
      decreases |buf|
    {
      var f := NextField(buf);
      if f.None? {
        return None;
      }
      var g := AddField(f.value, group);
      if g.None? {
        return None;
      }
      buf, group := buf[f.value.used..], g.value;
    }
    return Some(group);
  }

  // ---- round trips ----

  lemma {:induction false} Pow2Add(m: nat, n: nat)
    ensures Pow2(m + n) == Pow2(m) * Pow2(n)
  {
    if m > 0 {
      Pow2Add(m - 1, n);
      Doubled(Pow2(m - 1), Pow2(n));
    }
  }

  lemma Doubled(a: nat, b: nat)
    ensures 2 * (a * b) == (2 * a) * b
  {
  }

  lemma Pow2Seven(n: nat)
    ensures Pow2(n + 7) == 0x80 * Pow2(n)
  {
    assert Pow2(7) == 0x80 by {
      assert Pow2(3) == 8 && Pow2(4) == 16 && Pow2(5) == 32 && Pow2(6) == 64;
    }
    Pow2Add(n, 7);
  }

  lemma Pow2Large(n: nat)
    requires n >= 64
    ensures Pow2(n) >= U64
  {
    Pow2Add(n - 64, 64);
    Pow2Is64();
    hide Pow2;
    assert (Pow2(n - 64) - 1) * U64 >= 0;
  }

  lemma Pow2Is64()
    ensures Pow2(64) == U64
  {
    Pow2Is16();
    hide Pow2;
    Pow2Add(16, 16);
    Pow2Add(32, 32);
  }

  lemma Pow2Is16()
    ensures Pow2(16) == 0x1_0000
  {
    assert Pow2(4) == 16;
    Pow2Add(4, 4);
    hide Pow2;
    Pow2Add(8, 8);
  }

  lemma Distribute(low: nat, high: nat, s: nat)
    ensures (low + 0x80 * high) * s == low * s + high * (0x80 * s)
  {
  }

  lemma MulAtLeast(k: nat, s: nat)
    ensures k * s >= 0 && (k >= 1 ==> k * s >= s)
  {
  }

  // One turn of the decoder's loop: the low seven bits now, the rest seven places further on.
  lemma VarintStep(v: nat, shift: nat)
    requires v * Pow2(shift) < U64
    ensures Shl64(v % 0x80, shift) + (v / 0x80) * Pow2(shift + 7) == v * Pow2(shift)
    ensures (v / 0x80) * Pow2(shift + 7) < U64
    ensures v >= 0x80 ==> shift + 7 < 64
  {
    Pow2Seven(shift);
    var low, high, scale, next := v % 0x80, v / 0x80, Pow2(shift), Pow2(shift + 7);
    Distribute(low, high, scale);
    assert v == low + 0x80 * high;
    MulAtLeast(low, scale);
    MulAtLeast(high, next);
    Small(low * scale);
    if shift + 7 >= 64 {
      Pow2Large(shift + 7);
    }
  }

  lemma Small(x: nat)
    ensures x < U64 ==> x % U64 == x
  {
  }

  /** The decoder's loop reads an encoded number off the middle of a buffer. */
  lemma {:induction false} VarintLoop(pre: seq<byte>, v: nat, rest: seq<byte>, value: nat, shift: nat)
    requires v * Pow2(shift) < U64
    ensures DecodeFrom(pre + Varint(v) + rest, |pre|, value, shift)
      == Some((value + v * Pow2(shift), |pre| + |Varint(v)|))
    decreases v
  {
    hide Pow2, Shl64;
    var buf := pre + Varint(v) + rest;
    VarintStep(v, shift);
    assert buf[|pre|] == Varint(v)[0] && buf[|pre|] % 0x80 == v % 0x80;
    if v < 0x80 {
      assert (v / 0x80) * Pow2(shift + 7) == 0;
    } else {
      var pre' := pre + [Varint(v)[0]];
      assert buf == pre' + Varint(v / 0x80) + rest;
      VarintLoop(pre', v / 0x80, rest, value + Shl64(v % 0x80, shift), shift + 7);
    }
  }

  /** Every u64 comes back from its encoding, with the exact number of bytes consumed, whatever follows. */
  lemma VarintRoundTrip(v: nat, rest: seq<byte>)
    requires v < U64
    ensures DecodeVarint(Varint(v) + rest) == Some((v, |Varint(v)|))
  {
    assert [] + Varint(v) + rest == Varint(v) + rest;
    assert v * Pow2(0) == v;
    VarintLoop([], v, rest, 0, 0);
  }

  lemma LenDelimRoundTrip(field: nat, bytes: seq<byte>, rest: seq<byte>)
    requires field < U32 && |bytes| < U64
    ensures var s := LenDelim(field, bytes) + rest;
            && NextField(s) == Some(LenField(field, bytes, |LenDelim(field, bytes)|))
            && s[|LenDelim(field, bytes)|..] == rest && s != []
  {
    hide DecodeVarint, Varint;
    var s := LenDelim(field, bytes) + rest;
    var tag := field * 8 + WIRE_LEN;
    var body := Varint(|bytes|) + (bytes + rest);
    assert s == Varint(tag) + body;
    VarintRoundTrip(tag, body);
    assert s[|Varint(tag)|..] == body;
    VarintRoundTrip(|bytes|, bytes + rest);
    var n := |Varint(|bytes|)|;
    assert body[n..n + |bytes|] == bytes;
    assert DecodeLen(body) == Some((bytes, n + |bytes|));
  }

  lemma VarintFieldRoundTrip(v: nat, rest: seq<byte>)
    requires v < U64
    ensures var s := Varint(1 * 8 + WIRE_VARINT) + Varint(v) + rest;
            var n := |Varint(1 * 8 + WIRE_VARINT)| + |Varint(v)|;
            NextField(s) == Some(VarintField(1, v, n)) && s[n..] == rest
  {
    hide DecodeVarint, Varint;
    var tag := Varint(1 * 8 + WIRE_VARINT);
    var s := tag + Varint(v) + rest;
    assert s == tag + (Varint(v) + rest);
    VarintRoundTrip(1 * 8 + WIRE_VARINT, Varint(v) + rest);
    assert s[|tag|..] == Varint(v) + rest;
    VarintRoundTrip(v, rest);
  }

  lemma PairRoundTrip(p: KeyValue)
    requires |p.key| < U64 && |p.value| < U64
    ensures ParsePair(EncodePair(p)) == Some(p)
  {
    hide NextField, LenDelim;
    LenDelimRoundTrip(1, p.key, LenDelim(2, p.value));
    LenDelimRoundTrip(2, p.value, []);
    assert LenDelim(2, p.value) + [] == LenDelim(2, p.value);
    assert ParsePairFrom(LenDelim(2, p.value), KeyValue(p.key, [])) == ParsePairFrom([], p);
  }

  /** Every length inside an encoding is below 2 to the 64th; no vector is longer. */
  predicate PairSized(p: KeyValue) {
    |p.key| < U64 && |p.value| < U64 && |EncodePair(p)| < U64
  }

  predicate LogSized(l: LogEntry) {
    (forall p :: p in l.contents ==> PairSized(p)) && |EncodeLog(l)| < U64
  }

  predicate GroupSized(g: LogGroup) {
    && (forall l :: l in g.logs ==> LogSized(l))
    && (forall p :: p in g.tags ==> PairSized(p))
    && (g.topic.Some? ==> |g.topic.value| < U64)
    && (g.source.Some? ==> |g.source.value| < U64)
  }

  lemma {:induction false} ContentsRoundTrip(ps: seq<KeyValue>, l: LogEntry)
    requires forall p :: p in ps ==> PairSized(p)
    ensures ParseLogFrom(EncodePairs(2, ps), l) == Some(l.(contents := l.contents + ps))
  {
    hide NextField, LenDelim, ParsePair, EncodePair;
    if ps == [] {
      assert l.contents + ps == l.contents;
    } else {
      var rest := EncodePairs(2, ps[1..]);
      PairSizes(ps[0]);
      PairRoundTrip(ps[0]);
      LenDelimRoundTrip(2, EncodePair(ps[0]), rest);
      ContentsRoundTrip(ps[1..], l.(contents := l.contents + [ps[0]]));
      assert l.contents + [ps[0]] + ps[1..] == l.contents + ps;
    }
  }

  lemma PairSizes(p: KeyValue)
    requires PairSized(p)
    ensures |p.key| < U64 && |p.value| < U64 && |EncodePair(p)| < U64
  {
  }

  lemma LogRoundTrip(l: LogEntry)
    requires LogSized(l)
    ensures ParseLog(EncodeLog(l)) == Some(l)
  {
    hide NextField, Varint, EncodePairs, PairSized;
    VarintFieldRoundTrip(l.time, EncodePairs(2, l.contents));
    ContentsRoundTrip(l.contents, LogEntry(l.time, []));
    assert [] + l.contents == l.contents;
  }

  lemma {:induction false} LogsRoundTrip(ls: seq<LogEntry>, rest: seq<byte>, g: LogGroup)
    requires forall l :: l in ls ==> LogSized(l)
    ensures ParseGroupFrom(EncodeLogs(ls) + rest, g) == ParseGroupFrom(rest, g.(logs := g.logs + ls))
  {
    hide NextField, LenDelim, ParseLog, EncodeLog, LogSized;
    if ls == [] {
      assert EncodeLogs(ls) + rest == rest && g.logs + ls == g.logs;
    } else {
      var tail := EncodeLogs(ls[1..]) + rest;
      assert EncodeLogs(ls) + rest == LenDelim(1, EncodeLog(ls[0])) + tail;
      LogSizes(ls[0]);
      LogRoundTrip(ls[0]);
      LenDelimRoundTrip(1, EncodeLog(ls[0]), tail);
      var g' := g.(logs := g.logs + [ls[0]]);
      assert ParseGroupFrom(EncodeLogs(ls) + rest, g) == ParseGroupFrom(tail, g');
      hide ParseGroupFrom, AddField;
      LogsRoundTrip(ls[1..], rest, g');
      assert g'.logs + ls[1..] == g.logs + ls;
    }
  }

  lemma LogSizes(l: LogEntry)
    requires LogSized(l)
    ensures |EncodeLog(l)| < U64
  {
  }

  lemma {:induction false} TagsRoundTrip(ps: seq<KeyValue>, g: LogGroup)
    requires forall p :: p in ps ==> PairSized(p)
    ensures ParseGroupFrom(EncodePairs(6, ps), g) == Some(g.(tags := g.tags + ps))
  {
    hide NextField, LenDelim, ParsePair, EncodePair;
    if ps == [] {
      assert g.tags + ps == g.tags;
    } else {
      PairSizes(ps[0]);
      PairRoundTrip(ps[0]);
      LenDelimRoundTrip(6, EncodePair(ps[0]), EncodePairs(6, ps[1..]));
      TagsRoundTrip(ps[1..], g.(tags := g.tags + [ps[0]]));
      assert g.tags + [ps[0]] + ps[1..] == g.tags + ps;
    }
  }

  lemma TextRoundTrip(field: nat, t: Option<Text>, rest: seq<byte>, g: LogGroup)
    requires field == 3 || field == 4
    requires t.Some? ==> |t.value| < U64
    requires field == 3 ==> g.topic == None
    requires field == 4 ==> g.source == None
    ensures ParseGroupFrom(EncodeText(field, t) + rest, g)
      == ParseGroupFrom(rest, if field == 3 then g.(topic := t) else g.(source := t))
  {
    hide NextField, LenDelim, ValidUtf8;
    if t.Some? {
      LenDelimRoundTrip(field, t.value, rest);
    } else {
      assert [] + rest == rest;
    }
  }

  lemma {:induction false} PairsSized(field: nat, ps: seq<KeyValue>)
    requires |EncodePairs(field, ps)| < U64
    ensures forall p :: p in ps ==> PairSized(p)
  {
    if ps != [] {
      PairsSized(field, ps[1..]);
    }
  }

  lemma {:induction false} LogsSized(ls: seq<LogEntry>)
    requires |EncodeLogs(ls)| < U64
    ensures forall l :: l in ls ==> LogSized(l)
  {
    if ls != [] {
      PairsSized(2, ls[0].contents);
      LogsSized(ls[1..]);
    }
  }

  /** Decoding inverts encoding, for every log group whose encoding a 64-bit address space can hold. */
  lemma GroupRoundTrip(g: LogGroup)
    requires |EncodeGroup(g)| < U64
    ensures ParseGroup(EncodeGroup(g)) == Some(g)
  {
    LogsSized(g.logs);
    PairsSized(6, g.tags);
    SizedGroupRoundTrip(g);
  }

  lemma SizedGroupRoundTrip(g: LogGroup)
    requires GroupSized(g)
    ensures ParseGroup(EncodeGroup(g)) == Some(g)
  {
    hide ParseGroupFrom, EncodeText, EncodeLogs, EncodePairs, LogSized, PairSized;
    var tags := EncodePairs(6, g.tags);
    var source := EncodeText(4, g.source) + tags;
    var topic := EncodeText(3, g.topic) + source;
    assert EncodeGroup(g) == EncodeLogs(g.logs) + topic;
    LogsRoundTrip(g.logs, topic, EMPTY_GROUP);
    var g1 := EMPTY_GROUP.(logs := g.logs);
    assert [] + g.logs == g.logs && [] + g.tags == g.tags;
    TextRoundTrip(3, g.topic, source, g1);
    TextRoundTrip(4, g.source, tags, g1.(topic := g.topic));
    TagsRoundTrip(g.tags, g1.(topic := g.topic, source := g.source));
  }

  /** So no two groups share an encoding. */
  lemma EncodingInjective(g: LogGroup, h: LogGroup)
    requires |EncodeGroup(g)| < U64 && EncodeGroup(g) == EncodeGroup(h)
    ensures g == h
  {
    GroupRoundTrip(g);
    GroupRoundTrip(h);
  }
}
