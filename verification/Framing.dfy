// The flat reference for the CUPTI binary protocol: what framing the whole byte
// stream as one sequence yields, independent of any buffer or chunking.
module Framing {
  import opened Bytes

  const TILE_SIZE := 16 * 1024
  const RING_SIZE := 2 * TILE_SIZE
  const HEADER_SIZE := 8
  const HEADER_SECTION_SIZE := 4
  const EXIT_CODE := 0xdeadbeef

  datatype GpType = GpInvalid | GpExit | GpActivity | GpGetDevProp

  function GpTypeFrom(value: nat): GpType {
    if value == 1 then GpActivity
    else if value == 2 then GpGetDevProp
    else if value == EXIT_CODE then GpExit
    else GpInvalid
  }

  datatype Frame = Frame(ty: GpType, contents: seq<byte>)

  function HeaderType(s: seq<byte>): GpType
    requires HEADER_SIZE <= |s|
  {
    GpTypeFrom(FromLE32(s[..HEADER_SECTION_SIZE]))
  }

  function HeaderLen(s: seq<byte>): nat
    requires HEADER_SIZE <= |s|
  {
    FromLE32(s[HEADER_SECTION_SIZE..HEADER_SIZE])
  }

  /** What the bytes at the front of a stream are: not yet a frame, an invalid type, or a frame of `used` bytes. */
  datatype Cut = NeedMore | BadType | Got(frame: Frame, used: nat)

  function CutFrame(s: seq<byte>): (c: Cut)
    ensures c.Got? ==> HEADER_SIZE <= c.used <= |s|
  {
    if |s| < HEADER_SIZE then NeedMore
    else if HeaderType(s) == GpInvalid then BadType
    else if HeaderType(s) == GpExit then Got(Frame(GpExit, []), HEADER_SIZE)
    else if HeaderLen(s) > |s| - HEADER_SIZE then NeedMore
    else Got(Frame(HeaderType(s), s[HEADER_SIZE..HEADER_SIZE + HeaderLen(s)]), HEADER_SIZE + HeaderLen(s))
  }

  /** The frames of a whole stream. */
  function Frames(s: seq<byte>): seq<Frame>
    decreases |s|
  {
    var c := CutFrame(s);
    if c.Got? then [c.frame] + Frames(s[c.used..]) else []
  }

  /** The bytes left once every complete frame has been taken. */
  function Rest(s: seq<byte>): seq<byte>
    decreases |s|
  {
    var c := CutFrame(s);
    if c.Got? then Rest(s[c.used..]) else s
  }

  /** A (possibly unfinished) stream whose frames have at most `bound` bytes each, with a valid
      type, and where nothing follows an exit frame. */
  predicate Bounded(s: seq<byte>, bound: nat)
    decreases |s|
  {
    if |s| < HEADER_SIZE then true
    else if HeaderType(s) == GpInvalid then false
    else if HeaderType(s) == GpExit then |s| == HEADER_SIZE
    else
      && HEADER_SIZE + HeaderLen(s) <= bound
      && (HEADER_SIZE + HeaderLen(s) <= |s| ==> Bounded(s[HEADER_SIZE + HeaderLen(s)..], bound))
  }

  function Concat(chunks: seq<seq<byte>>): seq<byte> {
    if chunks == [] then [] else chunks[0] + Concat(chunks[1..])
  }

  /** Chunk sizes that `reload` accepts. */
  predicate Loadable(chunks: seq<seq<byte>>) {
    forall i :: 0 <= i < |chunks| ==> 1 <= |chunks[i]| <= TILE_SIZE
  }

  /** Starting with `pending` unread bytes, no reload of these chunks ever needs more than the ring holds. */
  predicate Fits(pending: seq<byte>, chunks: seq<seq<byte>>)
    decreases |chunks|
  {
    chunks == [] ||
    (&& |pending| + |chunks[0]| <= RING_SIZE
     && Fits(Rest(pending + chunks[0]), chunks[1..]))
  }

  // ---- what the bytes mean ----

  /** A length as its four header bytes have it. */
  predicate LengthIn(n0: byte, n1: byte, n2: byte, n3: byte, n: nat) {
    n == n0 + 256 * n1 + 65_536 * n2 + 16_777_216 * n3
  }

  /** The header of an activity record: 1 in four bytes, then the length of its payload. */
  lemma ActivityOnWire(n0: byte, n1: byte, n2: byte, n3: byte, p: seq<byte>, s: seq<byte>)
    requires LengthIn(n0, n1, n2, n3, |p|)
    ensures Frames([1, 0, 0, 0, n0, n1, n2, n3] + p + s) == [Frame(GpActivity, p)] + Frames(s)
    ensures Rest([1, 0, 0, 0, n0, n1, n2, n3] + p + s) == Rest(s)
  {
    WireHeader([1, 0, 0, 0], n0, n1, n2, n3, p + s);
    TakeFrame([1, 0, 0, 0, n0, n1, n2, n3], p, s);
  }

  /** That of device properties: 2. */
  lemma DevPropOnWire(n0: byte, n1: byte, n2: byte, n3: byte, p: seq<byte>, s: seq<byte>)
    requires LengthIn(n0, n1, n2, n3, |p|)
    ensures Frames([2, 0, 0, 0, n0, n1, n2, n3] + p + s) == [Frame(GpGetDevProp, p)] + Frames(s)
    ensures Rest([2, 0, 0, 0, n0, n1, n2, n3] + p + s) == Rest(s)
  {
    WireHeader([2, 0, 0, 0], n0, n1, n2, n3, p + s);
    TakeFrame([2, 0, 0, 0, n0, n1, n2, n3], p, s);
  }

  /** And of the end of a capture, whose length does not matter: 0xDEADBEEF, least significant byte first. */
  lemma ExitOnWire(n0: byte, n1: byte, n2: byte, n3: byte, s: seq<byte>)
    ensures Frames([0xEF, 0xBE, 0xAD, 0xDE, n0, n1, n2, n3] + s) == [Frame(GpExit, [])] + Frames(s)
    ensures Rest([0xEF, 0xBE, 0xAD, 0xDE, n0, n1, n2, n3] + s) == Rest(s)
  {
    WireHeader([0xEF, 0xBE, 0xAD, 0xDE], n0, n1, n2, n3, s);
    assert ([0xEF, 0xBE, 0xAD, 0xDE, n0, n1, n2, n3] + s)[HEADER_SIZE..] == s;
  }

  /** No other header is a frame's, and no frame is taken before all of it is there. */
  lemma NothingElseOnWire(s: seq<byte>)
    requires |s| >= 8 ==>
      && s[..4] != [0xEF, 0xBE, 0xAD, 0xDE]
      && (s[..4] in {[1, 0, 0, 0], [2, 0, 0, 0]} ==>
            forall n: nat :: LengthIn(s[4], s[5], s[6], s[7], n) ==> |s| - 8 < n)
    ensures Frames(s) == [] && Rest(s) == s
  {
    if |s| >= 8 {
      WireHeader(s[..4], s[4], s[5], s[6], s[7], s[8..]);
      assert s == s[..4] + [s[4], s[5], s[6], s[7]] + s[8..];
      assert s[..4] == [s[0], s[1], s[2], s[3]];
    }
  }

  lemma TakeFrame(header: seq<byte>, p: seq<byte>, s: seq<byte>)
    requires |header| == HEADER_SIZE && HeaderType(header + (p + s)) in {GpActivity, GpGetDevProp}
    requires HeaderLen(header + (p + s)) == |p|
    ensures var all := header + p + s;
            Frames(all) == [Frame(HeaderType(all), p)] + Frames(s) && Rest(all) == Rest(s)
    ensures HeaderType(header + p + s) == HeaderType(header + (p + s))
  {
    var all := header + p + s;
    assert all == header + (p + s);
    assert all[HEADER_SIZE..HEADER_SIZE + |p|] == p && all[HEADER_SIZE + |p|..] == s;
  }

  lemma WireHeader(code: seq<byte>, n0: byte, n1: byte, n2: byte, n3: byte, s: seq<byte>)
    requires |code| == 4
    ensures var all := code + [n0, n1, n2, n3] + s;
            && HeaderType(all) == (
                 if code == [1, 0, 0, 0] then GpActivity
                 else if code == [2, 0, 0, 0] then GpGetDevProp
                 else if code == [0xEF, 0xBE, 0xAD, 0xDE] then GpExit
                 else GpInvalid)
            && LengthIn(n0, n1, n2, n3, HeaderLen(all))
  {
    var all := code + [n0, n1, n2, n3] + s;
    assert all[..4] == code && all[4..8] == [n0, n1, n2, n3];
    assert code == [code[0], code[1], code[2], code[3]];
  }

  /** A frame as the probe writes it. */
  predicate OnWire(f: Frame, bytes: seq<byte>) {
    && |bytes| >= 8 && bytes[8..] == f.contents
    && LengthIn(bytes[4], bytes[5], bytes[6], bytes[7], |f.contents|)
    && ((f.ty == GpActivity && bytes[..4] == [1, 0, 0, 0]) || (f.ty == GpGetDevProp && bytes[..4] == [2, 0, 0, 0]))
  }

  /** The end of a capture as the probe writes it, if it does. */
  predicate EndOnWire(end: seq<byte>) {
    end == [] || (|end| == 8 && end[..4] == [0xEF, 0xBE, 0xAD, 0xDE])
  }

  /** A capture, byte for byte: its frames, and the exit frame if there is one; bounded exactly as its frames are. */
  lemma {:induction false} CaptureOnWire(fs: seq<Frame>, parts: seq<seq<byte>>, end: seq<byte>, bound: nat)
    requires |parts| == |fs| && (forall i :: 0 <= i < |fs| ==> OnWire(fs[i], parts[i])) && EndOnWire(end)
    ensures Frames(Concat(parts) + end) == fs + (if end == [] then [] else [Frame(GpExit, [])])
    ensures Rest(Concat(parts) + end) == []
    ensures Bounded(Concat(parts) + end, bound) <==> forall i :: 0 <= i < |parts| ==> |parts[i]| <= bound
    decreases |fs|
  {
    hide CutFrame, Frames, Rest, Bounded, OnWire, EndOnWire;
    if fs == [] {
      EndIs(end, bound);
      assert Concat(parts) + end == end;
      assert fs + (if end == [] then [] else [Frame(GpExit, [])]) == if end == [] then [] else [Frame(GpExit, [])];
    } else {
      var tail := Concat(parts[1..]) + end;
      assert Concat(parts) + end == parts[0] + tail;
      CaptureOnWire(fs[1..], parts[1..], end, bound);
      PartIs(fs[0], parts[0], tail, bound);
      var exit := if end == [] then [] else [Frame(GpExit, [])];
      assert [fs[0]] + (fs[1..] + exit) == fs + exit;
      assert parts == [parts[0]] + parts[1..];
    }
  }

  lemma EndIs(end: seq<byte>, bound: nat)
    requires EndOnWire(end)
    ensures Frames(end) == (if end == [] then [] else [Frame(GpExit, [])]) && Rest(end) == [] && Bounded(end, bound)
  {
    if end != [] {
      assert end == [0xEF, 0xBE, 0xAD, 0xDE, end[4], end[5], end[6], end[7]] + [];
      ExitOnWire(end[4], end[5], end[6], end[7], []);
      WireHeader(end[..4], end[4], end[5], end[6], end[7], []);
      assert end == end[..4] + [end[4], end[5], end[6], end[7]] + [];
    }
  }

  lemma PartIs(f: Frame, part: seq<byte>, tail: seq<byte>, bound: nat)
    requires OnWire(f, part)
    ensures Frames(part + tail) == [f] + Frames(tail) && Rest(part + tail) == Rest(tail)
    ensures Bounded(part + tail, bound) <==> |part| <= bound && Bounded(tail, bound)
  {
    var (n0, n1, n2, n3) := (part[4], part[5], part[6], part[7]);
    assert part == part[..4] + [n0, n1, n2, n3] + f.contents;
    assert part + tail == part[..4] + [n0, n1, n2, n3] + f.contents + tail;
    WireHeader(part[..4], n0, n1, n2, n3, f.contents + tail);
    assert part + tail == part[..4] + [n0, n1, n2, n3] + (f.contents + tail);
    TakeFrame(part[..4] + [n0, n1, n2, n3], f.contents, tail);
    assert (part + tail)[8 + |f.contents|..] == tail;
  }

  // ---- encoding, the inverse ----

  predicate Payload(f: Frame) {
    (f.ty == GpActivity || f.ty == GpGetDevProp) && |f.contents| < U32
  }

  function TypeCode(ty: GpType): nat {
    match ty
    case GpActivity => 1
    case GpGetDevProp => 2
    case GpExit => EXIT_CODE
    case GpInvalid => 0
  }

  function EncodeFrame(f: Frame): (s: seq<byte>)
    requires Payload(f)
    ensures |s| == HEADER_SIZE + |f.contents|
  {
    ToLE32(TypeCode(f.ty)) + ToLE32(|f.contents|) + f.contents
  }

  function Encode(fs: seq<Frame>): seq<byte>
    requires forall f :: f in fs ==> Payload(f)
  {
    if fs == [] then [] else EncodeFrame(fs[0]) + Encode(fs[1..])
  }

  // ---- lemmas ----

  lemma CutStable(a: seq<byte>, b: seq<byte>)
    requires CutFrame(a) != NeedMore
    ensures CutFrame(a + b) == CutFrame(a)
  {
  }

  lemma HeaderStable(a: seq<byte>, b: seq<byte>)
    requires HEADER_SIZE <= |a|
    ensures HeaderType(a + b) == HeaderType(a) && HeaderLen(a + b) == HeaderLen(a)
  {
  }

  lemma FramesStep(a: seq<byte>, b: seq<byte>, t: seq<byte>)
    requires CutFrame(a).Got? && t == a[CutFrame(a).used..]
    ensures Frames(a + b) == [CutFrame(a).frame] + Frames(t + b)
    ensures Rest(a + b) == Rest(t + b)
  {
    CutStable(a, b);
    assert (a + b)[CutFrame(a).used..] == t + b;
  }

  /** Framing a stream in two parts loses, repeats and reorders nothing. */
  lemma {:induction false} FramesSplit(a: seq<byte>, b: seq<byte>)
    requires CutFrame(Rest(a)) == NeedMore
    ensures Frames(a + b) == Frames(a) + Frames(Rest(a) + b)
    ensures Rest(a + b) == Rest(Rest(a) + b)
    decreases |a|
  {
    hide CutFrame;
    var c := CutFrame(a);
    if c.Got? {
      var t := a[c.used..];
      FramesStep(a, b, t);
      FramesSplit(t, b);
    }
  }

  /** A bounded stream stays bounded when cut short, and what is left unframed is less than one frame. */
  lemma {:induction false} BoundedPrefix(a: seq<byte>, b: seq<byte>, bound: nat)
    requires Bounded(a + b, bound) && HEADER_SIZE <= bound
    ensures Bounded(a, bound)
    ensures CutFrame(Rest(a)) == NeedMore
    ensures |Rest(a)| < bound
    ensures Bounded(Rest(a) + b, bound)
    ensures GpExit in (set f | f in Frames(a) :: f.ty) ==> b == []
    decreases |a|
  {
    if HEADER_SIZE <= |a| {
      HeaderStable(a, b);
      var c := CutFrame(a);
      if c.Got? {
        if HeaderType(a) == GpExit {
          assert a[c.used..] == [] && b == [];
        } else {
          assert (a + b)[c.used..] == a[c.used..] + b;
          BoundedPrefix(a[c.used..], b, bound);
        }
      }
    }
  }

  /** Frames of at most TILE_SIZE + 1 bytes never overrun the ring, however the stream is cut. */
  lemma {:induction false} BoundedFits(pending: seq<byte>, chunks: seq<seq<byte>>)
    requires Loadable(chunks)
    requires |pending| <= TILE_SIZE
    requires Bounded(pending + Concat(chunks), TILE_SIZE + 1)
    ensures Fits(pending, chunks)
    decreases |chunks|
  {
    hide Bounded, CutFrame;
    if chunks != [] {
      var p := pending + chunks[0];
      assert pending + Concat(chunks) == p + Concat(chunks[1..]);
      BoundedPrefix(p, Concat(chunks[1..]), TILE_SIZE + 1);
      BoundedFits(Rest(p), chunks[1..]);
    }
  }

  lemma EncodedHeader(f: Frame, tail: seq<byte>)
    requires Payload(f)
    ensures var s := EncodeFrame(f) + tail;
            HeaderType(s) == f.ty && HeaderLen(s) == |f.contents|
            && s[HEADER_SIZE..HEADER_SIZE + |f.contents|] == f.contents
            && s[HEADER_SIZE + |f.contents|..] == tail
  {
    var s := EncodeFrame(f) + tail;
    LE32RoundTrip(TypeCode(f.ty));
    LE32RoundTrip(|f.contents|);
    assert s[..HEADER_SECTION_SIZE] == ToLE32(TypeCode(f.ty));
    assert s[HEADER_SECTION_SIZE..HEADER_SIZE] == ToLE32(|f.contents|);
  }

  /** The end of a capture: nothing at all, or one exit header whose length field is ignored. */
  predicate Ending(end: seq<byte>) {
    end == [] || (|end| == HEADER_SIZE && HeaderType(end) == GpExit)
  }

  /** Framing inverts encoding, and the encoded capture is bounded exactly when its frames are small enough. */
  lemma {:induction false} EncodeRoundTrip(fs: seq<Frame>, end: seq<byte>, bound: nat)
    requires (forall f :: f in fs ==> Payload(f)) && Ending(end)
    ensures Frames(Encode(fs) + end) == fs + (if end == [] then [] else [Frame(GpExit, [])])
    ensures Rest(Encode(fs) + end) == []
    ensures Bounded(Encode(fs) + end, bound) <==> forall f :: f in fs ==> HEADER_SIZE + |f.contents| <= bound
  {
    hide EncodeFrame, CutFrame, Frames, Rest, Bounded, Ending;
    var exit: seq<Frame> := if end == [] then [] else [Frame(GpExit, [])];
    EndingFrames(end, bound);
    if fs == [] {
      assert Encode(fs) + end == end && fs + exit == exit;
    } else {
      var tail := Encode(fs[1..]) + end;
      assert Encode(fs) + end == EncodeFrame(fs[0]) + tail;
      EncodedStep(fs[0], tail, bound);
      EncodeRoundTrip(fs[1..], end, bound);
      assert fs == [fs[0]] + fs[1..];
      assert [fs[0]] + (fs[1..] + exit) == fs + exit;
    }
  }

  lemma EndingFrames(end: seq<byte>, bound: nat)
    requires Ending(end)
    ensures Frames(end) == (if end == [] then [] else [Frame(GpExit, [])])
    ensures Rest(end) == [] && Bounded(end, bound)
  {
    assert end[|end|..] == [];
  }

  lemma EncodedStep(f: Frame, tail: seq<byte>, bound: nat)
    requires Payload(f)
    ensures var s := EncodeFrame(f) + tail;
            && Frames(s) == [f] + Frames(tail) && Rest(s) == Rest(tail)
            && (Bounded(s, bound) <==> HEADER_SIZE + |f.contents| <= bound && Bounded(tail, bound))
  {
    EncodedHeader(f, tail);
  }

  // ---- the frame bound is exact ----

  predicate SafeFor(bound: nat, chunks: seq<seq<byte>>) {
    Loadable(chunks) && Bounded(Concat(chunks), bound) ==> Fits([], chunks)
  }

  /** A frame one byte too large, and a stream that goes on into the next of them. */
  function BigFrame(): Frame { Frame(GpActivity, seq(TILE_SIZE + 2 - HEADER_SIZE, _ => 0)) }

  function BigStream(): (s: seq<byte>)
    ensures |s| == RING_SIZE + 1
  {
    EncodeFrame(BigFrame()) + EncodeFrame(BigFrame())[..TILE_SIZE - 1]
  }

  /** Cut so that the last chunk comes when all but one byte of the first frame is there. */
  function OverrunChunks(): (chunks: seq<seq<byte>>)
    ensures |chunks| == 3 && |chunks[0]| == 1 && |chunks[1]| == |chunks[2]| == TILE_SIZE
  {
    var s := BigStream();
    [s[..1], s[1..TILE_SIZE + 1], s[TILE_SIZE + 1..]]
  }

  lemma OverrunConcat()
    ensures Concat(OverrunChunks()) == BigStream()
    ensures OverrunChunks()[0] + OverrunChunks()[1] == EncodeFrame(BigFrame())[..TILE_SIZE + 1]
  {
    hide EncodeFrame;
    var chunks, s := OverrunChunks(), BigStream();
    assert Concat(chunks[2..]) == chunks[2];
    assert chunks[1..][1..] == chunks[2..];
    assert Concat(chunks[1..]) == chunks[1] + chunks[2];
  }

  // The beginning of a frame too large is bounded by its size, and nothing can be cut off it yet.
  lemma BigPrefix(n: nat, bound: nat)
    requires bound >= TILE_SIZE + 2 && n < TILE_SIZE + 2
    ensures var p := EncodeFrame(BigFrame())[..n];
            Bounded(p, bound) && Rest(p) == p && Frames(p) == []
  {
    var f, e := BigFrame(), EncodeFrame(BigFrame());
    EncodedHeader(f, []);
    assert e + [] == e;
    if n >= HEADER_SIZE {
      HeaderStable(e[..n], e[n..]);
      assert e[..n] + e[n..] == e;
    }
  }

  lemma BigStreamBounded(bound: nat)
    requires bound >= TILE_SIZE + 2
    ensures Bounded(BigStream(), bound) && Frames(BigStream()) == [BigFrame()]
  {
    var f, half := BigFrame(), EncodeFrame(BigFrame())[..TILE_SIZE - 1];
    BigPrefix(TILE_SIZE - 1, bound);
    EncodedStep(f, half, bound);
  }

  /** The stream is bounded by the size of its frames, and its chunks need more than the ring holds. */
  lemma Overrun(bound: nat)
    requires bound >= TILE_SIZE + 2
    ensures !SafeFor(bound, OverrunChunks())
  {
    hide Bounded, Rest, EncodeFrame, BigStream, OverrunChunks;
    var chunks := OverrunChunks();
    OverrunConcat();
    BigStreamBounded(bound);
    BigPrefix(1, bound);
    BigPrefix(TILE_SIZE + 1, bound);
    FirstByte();
    assert [] + chunks[0] == chunks[0];
    assert chunks[1..][0] == chunks[1] && chunks[1..][1..][0] == chunks[2];
    assert !Fits(chunks[0] + chunks[1], chunks[1..][1..]);
    assert !Fits(chunks[0], chunks[1..]);
  }

  lemma FirstByte()
    ensures OverrunChunks()[0] == EncodeFrame(BigFrame())[..1]
  {
  }

  /** Every stream whose frames have at most `bound` bytes survives every chunking exactly when
      `bound` is at most TILE_SIZE + 1, one more than 16 KiB. */
  lemma FrameBoundIsExact(bound: nat)
    ensures (forall chunks :: SafeFor(bound, chunks)) <==> bound <= 16_385
  {
    if bound <= TILE_SIZE + 1 {
      forall chunks ensures SafeFor(bound, chunks) {
        if Loadable(chunks) && Bounded(Concat(chunks), bound) {
          BoundedMonotone(Concat(chunks), bound, TILE_SIZE + 1);
          assert [] + Concat(chunks) == Concat(chunks);
          BoundedFits([], chunks);
        }
      }
    } else {
      Overrun(bound);
      assert !SafeFor(bound, OverrunChunks());
    }
  }

  lemma {:induction false} BoundedMonotone(s: seq<byte>, lo: nat, hi: nat)
    requires Bounded(s, lo) && lo <= hi
    ensures Bounded(s, hi)
    decreases |s|
  {
    if HEADER_SIZE <= |s| && HeaderType(s) != GpExit && HEADER_SIZE + HeaderLen(s) <= |s| {
      BoundedMonotone(s[HEADER_SIZE + HeaderLen(s)..], lo, hi);
    }
  }
}
