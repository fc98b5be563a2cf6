// The ring buffer that cuts arbitrarily chunked input into CUPTI frames, and the
// receiver loop that fills and drains it.
module RingParser {
  import opened Bytes
  import opened Framing

  datatype ParserState = Reload | Readable(ty: GpType, contents: seq<byte>)

  datatype Result<T> = Ok(value: T) | Err

  const DEFAULT_READABLE := Readable(GpInvalid, [])

  function Min(a: int, b: int): int { if a < b then a else b }

  /** An index into the ring, one lap ahead at most. */
  function Wrap(x: nat): nat { if x < RING_SIZE then x else x - RING_SIZE }

  /** How many of the next `need` bytes lie before the end of the ring when the rest wrap; 0 when none do. */
  function CircleBreak(from: nat, need: nat): (n: nat)
    requires from < 2 * RING_SIZE && need <= RING_SIZE
    ensures from < RING_SIZE ==> n == if from + need < RING_SIZE then 0 else RING_SIZE - from
    ensures from >= RING_SIZE && from + need < 2 * RING_SIZE ==> n == 0
  {
    var over := (from + need) % RING_SIZE;
    if need < over then 0 else need - over
  }

  /** `bytes` are in the ring from `pos` on, continued at its front. */
  ghost predicate Holds(ring: seq<byte>, pos: nat, bytes: seq<byte>)
    requires |ring| == RING_SIZE && pos < RING_SIZE
  {
    |bytes| <= RING_SIZE && forall k :: 0 <= k < |bytes| ==> bytes[k] == ring[Wrap(pos + k)]
  }

  lemma HoldsRest(ring: seq<byte>, pos: nat, bytes: seq<byte>, m: nat)
    requires |ring| == RING_SIZE && pos < RING_SIZE && Holds(ring, pos, bytes) && m <= |bytes|
    ensures Wrap(pos + m) < RING_SIZE && Holds(ring, Wrap(pos + m), bytes[m..])
    ensures Wrap(Wrap(pos + m) + (|bytes| - m)) == Wrap(pos + |bytes|)
  {
  }

  /** Whether ring index `k` lies in the `len` cells that start at `pos`. */
  predicate Covers(pos: nat, len: nat, k: nat) {
    pos <= k < pos + len || k < pos + len - RING_SIZE
  }

  /** Two rings agree outside those cells. */
  ghost predicate Outside(ring: seq<byte>, ring': seq<byte>, pos: nat, len: nat)
    requires |ring| == |ring'| == RING_SIZE
  {
    forall k :: 0 <= k < RING_SIZE && !Covers(pos, len, k) ==> ring'[k] == ring[k]
  }

  /** Bytes written behind the ones a ring holds extend them, and overwrite none of them. */
  lemma HoldsAppend(ring: seq<byte>, ring': seq<byte>, pos: nat, bytes: seq<byte>, more: seq<byte>)
    requires |ring| == |ring'| == RING_SIZE && pos < RING_SIZE && Holds(ring, pos, bytes)
    requires |bytes| + |more| <= RING_SIZE && Wrap(pos + |bytes|) < RING_SIZE
    requires Holds(ring', Wrap(pos + |bytes|), more)
    requires Outside(ring, ring', Wrap(pos + |bytes|), |more|)
    ensures Holds(ring', pos, bytes + more)
  {
  }

  lemma CutCases(s: seq<byte>)
    ensures |s| < HEADER_SIZE ==> CutFrame(s) == NeedMore
    ensures HEADER_SIZE <= |s| && HeaderType(s) == GpInvalid ==> CutFrame(s) == BadType
    ensures HEADER_SIZE <= |s| && HeaderType(s) == GpExit ==> CutFrame(s) == Got(Frame(GpExit, []), HEADER_SIZE)
    ensures HEADER_SIZE <= |s| && HeaderType(s) !in {GpInvalid, GpExit} ==>
      var n := HEADER_SIZE + HeaderLen(s);
      CutFrame(s) == if n > |s| then NeedMore else Got(Frame(HeaderType(s), s[HEADER_SIZE..n]), n)
  {
  }

  ghost function HeaderAt(cells: seq<byte>, pos: nat): (s: seq<byte>)
    requires |cells| == RING_SIZE && pos < RING_SIZE
    ensures |s| == HEADER_SIZE && Holds(cells, pos, s)
  {
    seq(HEADER_SIZE, k requires 0 <= k < HEADER_SIZE => cells[Wrap(pos + k)])
  }

  class BinParser {
    var ring: array<byte>
    ghost var cells: seq<byte>  // what `ring` holds
    ghost var pending: seq<byte>  // the unread bytes
    var position: nat  // of the read/write cursor over `ring`
    var tail: nat
    var occupancy: nat
    var count: nat
    var state: ParserState
    var nextState: ParserState

    ghost predicate Backed()
      reads this, ring
    {
      ring.Length == RING_SIZE && cells == ring[..]
    }

    ghost predicate Shape()
      reads this
    {
      |cells| == RING_SIZE && position < RING_SIZE && tail < RING_SIZE
    }

    /** The ring safety bound: never more unread bytes than cells, and the tail sits right behind them. */
    ghost predicate Valid()
      reads this
    {
      && Shape() && occupancy == |pending| <= RING_SIZE && tail == Wrap(position + occupancy)
      && Holds(cells, position, pending)
    }

    /** The cells from which a header would be read. */
    ghost function HeaderCells(): (s: seq<byte>)
      requires Shape()
      reads this
      ensures |s| == HEADER_SIZE && Holds(cells, position, s)
    {
      HeaderAt(cells, position)
    }

    /** There is no frame where the cursor is: what a buffer that was overrun can come to. */
    ghost predicate Garbled()
      reads this
    {
      Shape() && HEADER_SIZE <= occupancy && HeaderType(HeaderCells()) == GpInvalid
    }

    constructor ()
      ensures Backed() && Valid() && fresh(ring)
      ensures position == 0 && pending == [] && count == 0 && nextState == Reload
    {
      ring := new byte[RING_SIZE](_ => 0);
      position, tail, occupancy, count := 0, 0, 0, 0;
      state, nextState := Reload, Reload;
      new;
      cells, pending := ring[..], [];
    }

    // Cursor::read: as many bytes as there are before the end of the array.
    method CursorRead(n: nat) returns (bytes: seq<byte>)
      requires Backed() && position <= RING_SIZE
      modifies this`position
      ensures position == Min(old(position) + n, RING_SIZE)
      ensures bytes == cells[old(position)..position]
    {
      var end := Min(position + n, RING_SIZE);
      bytes := ring[position..end];
      position := end;
    }

    // Cursor::write over a fixed array.
    method CursorWrite(bytes: seq<byte>)
      requires Backed() && position <= RING_SIZE
      modifies this`position, this`cells, ring
      ensures Backed()
      ensures position == Min(old(position) + |bytes|, RING_SIZE)
      ensures forall k :: 0 <= k < RING_SIZE ==>
        cells[k] == if old(position) <= k < position then bytes[k - old(position)] else old(cells)[k]
    {
      var end := Min(position + |bytes|, RING_SIZE);
      var start := position;
      forall k | start <= k < end {
        ring[k] := bytes[k - start];
      }
      position := end;
      cells := ring[..];
    }

    // The two-part read used for the header and again for the payload.
    method ReadAround(from: nat, need: nat, ghost held: seq<byte>) returns (bytes: seq<byte>)
      requires Backed() && position < RING_SIZE && Holds(cells, position, held) && need <= |held|
      requires from == position || (from == position + RING_SIZE && position + need < RING_SIZE)
      modifies this`position
      ensures bytes == held[..need]
      ensures position == Wrap(old(position) + need)
    {
      var circleBreak := CircleBreak(from, need);
      if circleBreak > 0 {
        var first := CursorRead(circleBreak);
        position := 0;
        var second := CursorRead(need - circleBreak);
        bytes := first + second;
      } else {
        bytes := CursorRead(need);
      }
    }

    // The two-part write of `reload`.
    method WriteAround(from: nat, bytes: seq<byte>) returns (end: nat)
      requires Backed() && position == from < RING_SIZE && |bytes| <= TILE_SIZE
      modifies this`position, this`cells, ring
      ensures Backed()
      ensures Holds(cells, from, bytes) && Outside(old(cells), cells, from, |bytes|)
      ensures end == Wrap(from + |bytes|) < RING_SIZE
    {
      var circleBreak := CircleBreak(from, |bytes|);
      if circleBreak > 0 {
        CursorWrite(bytes[..circleBreak]);
        position := 0;
        CursorWrite(bytes[circleBreak..]);
        end := |bytes| - circleBreak;
      } else {
        CursorWrite(bytes);
        end := from + |bytes|;
      }
    }

    method ReadHeader() returns (gt: GpType, need: nat)
      requires Backed() && Shape() && HEADER_SIZE <= occupancy
      modifies this`position
      ensures gt == HeaderType(old(HeaderCells()))
      ensures position == Wrap(old(position) + HEADER_SIZE) < RING_SIZE
      ensures old(Valid()) ==>
        && gt == HeaderType(pending) && need == HeaderLen(pending)
        && Holds(cells, position, pending[HEADER_SIZE..]) && Wrap(position + (occupancy - HEADER_SIZE)) == tail
    {
      hide FromLE32, GpTypeFrom;
      ghost var held := HeaderCells();
      if Valid() {
        HoldsRest(cells, position, pending, HEADER_SIZE);
        assert held == pending[..HEADER_SIZE];
      }
      var header := ReadAround(position, HEADER_SIZE, held);
      var gpType, len := header[..HEADER_SECTION_SIZE], header[HEADER_SECTION_SIZE..];
      assert header == held;
      assert old(Valid()) ==>
        gpType == pending[..HEADER_SECTION_SIZE] && len == pending[HEADER_SECTION_SIZE..HEADER_SIZE];
      need := FromLE32(len);
      gt := GpTypeFrom(FromLE32(gpType));
    }

    method ReadContents(lastPos: nat, need: nat) returns (contents: seq<byte>)
      requires Backed() && lastPos < RING_SIZE && position == Wrap(lastPos + HEADER_SIZE) < RING_SIZE
      requires HEADER_SIZE + need <= |pending| == occupancy <= RING_SIZE
      requires Holds(cells, position, pending[HEADER_SIZE..])
      requires Wrap(position + (occupancy - HEADER_SIZE)) == tail
      modifies this`position
      ensures contents == pending[HEADER_SIZE..HEADER_SIZE + need]
      ensures position == Wrap(old(position) + need) < RING_SIZE
      ensures Holds(cells, position, pending[HEADER_SIZE + need..])
      ensures Wrap(position + (occupancy - HEADER_SIZE - need)) == tail
    {
      ghost var q := pending[HEADER_SIZE..];
      HoldsRest(cells, position, q, need);
      contents := ReadAround(lastPos + HEADER_SIZE, need, q);
      assert q[need..] == pending[HEADER_SIZE + need..];
    }

    /** What `next` does with the flat cut `c` of the unread bytes, when it is in its readable state. */
    twostate predicate Steps(new c: Cut, new r: Result<ParserState>)
      reads this
    {
      match c
      case NeedMore =>
        r == Ok(Reload) && state == nextState == Reload && position == old(position) && pending == old(pending) &&
          count == old(count)
      case BadType =>
        r == Err && position == Wrap(old(position) + HEADER_SIZE) && occupancy == old(occupancy)
        && count == old(count) && state == old(state) && nextState == old(nextState)
      case Got(f, used) =>
        && r == Ok(Readable(f.ty, f.contents))
        && used <= |old(pending)| && pending == old(pending)[used..]
        && (f.ty == GpExit ==> state == nextState == Reload && count == old(count))
        && (f.ty != GpExit ==> state == r.value && nextState == DEFAULT_READABLE && count == old(count) + 1)
    }

    /** Cuts the next frame off the unread bytes, exactly as the flat reference does; fails where there is none. */
    method Next() returns (r: Result<ParserState>)
      requires Backed() && (Valid() || Garbled())
      modifies this`position, this`pending, this`occupancy, this`count, this`state, this`nextState
      ensures old(Valid()) && old(nextState).Readable? ==> Steps(CutFrame(old(pending)), r)
      ensures old(nextState).Reload? ==> Steps(NeedMore, r)
      ensures old(Valid()) && r.Ok? ==> Valid()
      ensures old(Garbled()) && old(nextState).Readable? ==> r == Err
    {
      match nextState
      case Readable(_, _) =>
        r := NextReadable();
      case Reload =>
        state, nextState := Reload, Reload;
        r := Ok(state);
    }

    method NextReadable() returns (r: Result<ParserState>)
      requires Backed() && (Valid() || Garbled()) && nextState.Readable?
      modifies this`position, this`pending, this`occupancy, this`count, this`state, this`nextState
      ensures old(Valid()) ==> Steps(CutFrame(old(pending)), r) && (r.Ok? ==> Valid())
      ensures old(Garbled()) ==> r == Err
    {
      hide CutFrame, HeaderType, HeaderLen, FromLE32, Holds, HeaderCells, Wrap;
      CutCases(pending);
      ghost var p, cut := pending, CutFrame(pending);
      var lastPos := position;
      if HEADER_SIZE > occupancy {
        nextState, state := Reload, Reload;
        return Ok(Reload);
      }
      var gt, need := ReadHeader();
      var remaining := occupancy - HEADER_SIZE;
      if gt == GpInvalid {
        return Err;
      }
      if gt == GpExit {
        occupancy, pending := remaining, p[HEADER_SIZE..];
        nextState, state := Reload, Reload;
        return Ok(Readable(gt, []));
      }
      if need > remaining {
        position := lastPos;
        nextState, state := Reload, Reload;
        return Ok(Reload);
      }
      var contents := ReadContents(lastPos, need);
      assert cut == Got(Frame(gt, contents), HEADER_SIZE + need);
      nextState := DEFAULT_READABLE;
      state := Readable(gt, contents);
      occupancy, pending := remaining - need, p[HEADER_SIZE + need..];
      count := count + 1;
      return Ok(state);
    }

    /** Appends the first `size` bytes of the input behind the unread ones. When they fit, nothing
        unread is lost; either way the new cells are exactly the `size` ones behind the tail. */
    method Load(input: seq<byte>, size: nat) returns (ok: bool)
      requires Backed() && Shape() && |input| == TILE_SIZE
      modifies this`position, this`tail, this`cells, this`pending, this`occupancy, this`nextState, ring
      ensures Backed() && Shape()
      ensures ok <==> 1 <= size <= TILE_SIZE
      ensures position == old(position)
      ensures !ok ==> cells == old(cells) && pending == old(pending) && tail == old(tail)
      ensures !ok ==> occupancy == old(occupancy) && nextState == old(nextState)
      ensures ok ==> tail == Wrap(old(tail) + size) && occupancy == old(occupancy) + size
      ensures ok ==> nextState == DEFAULT_READABLE && pending == old(pending) + input[..size]
      ensures ok ==> Holds(cells, old(tail), input[..size]) && Outside(old(cells), cells, old(tail), size)
      ensures ok && old(Valid()) && old(occupancy) + size <= RING_SIZE ==> Valid()
    {
      if size > TILE_SIZE || size == 0 {
        return false;
      }
      var currentPos := position;
      var buf := input[..size];
      ghost var was := cells;
      position := tail;
      tail := WriteAround(tail, buf);
      occupancy := occupancy + size;
      position := currentPos;
      nextState := DEFAULT_READABLE;
      if old(Valid()) && occupancy <= RING_SIZE {
        HoldsAppend(was, cells, position, pending, buf);
      }
      pending := pending + buf;
      return true;
    }
  }

  datatype Chunk = Chunk(buffer: seq<byte>, size: nat)

  predicate WellSized(c: Chunk) {
    |c.buffer| == TILE_SIZE && 1 <= c.size <= TILE_SIZE
  }

  function Data(c: Chunk): seq<byte>
    requires WellSized(c)
  {
    c.buffer[..c.size]
  }

  function Datas(chunks: seq<Chunk>): (ds: seq<seq<byte>>)
    requires forall c :: c in chunks ==> WellSized(c)
    ensures |ds| == |chunks| && Loadable(ds)
    ensures forall i :: 0 <= i < |ds| ==> ds[i] == Data(chunks[i])
  {
    if chunks == [] then [] else
      assert chunks[0] in chunks;
      [Data(chunks[0])] + Datas(chunks[1..])
  }

  /** One buffer of the receiver loop: load it, then take frames until the parser asks for more or an exit arrives. */
  method Feed(parser: BinParser, c: Chunk, ghost bound: nat) returns (got: seq<Frame>)
    requires parser.Backed() && parser.Valid() && WellSized(c)
    requires |parser.pending| + c.size <= RING_SIZE
    requires Bounded(parser.pending + Data(c), bound)
    modifies parser, parser.ring
    ensures parser.Backed() && parser.Valid() && parser.ring == old(parser.ring)
    ensures got == Frames(old(parser.pending) + Data(c))
    ensures parser.pending == Rest(old(parser.pending) + Data(c))
    ensures got == [] ==> parser.position == old(parser.position)
  {
    hide CutFrame, Frames, Rest, Bounded, Holds;
    var ok := parser.Load(c.buffer, c.size);
    ghost var p := parser.pending;
    got := [];
    while true
      invariant parser.Backed() && parser.Valid() && parser.ring == old(parser.ring)
      invariant parser.nextState.Readable?
      invariant Bounded(parser.pending, bound)
      invariant got + Frames(parser.pending) == Frames(p)
      invariant Rest(parser.pending) == Rest(p)
      invariant got == [] ==> parser.position == old(parser.position)
      decreases parser.occupancy
    {
      FramingStep(parser.pending, bound);
      var r := parser.Next();
      if r.Err? || r.value.Reload? {
        break;
      }
      got := got + [Frame(r.value.ty, r.value.contents)];
      if r.value.ty == GpExit {
        break;
      }
    }
  }

  /** One step of draining a bounded stream: a frame off the front, or nothing left to take. */
  lemma FramingStep(s: seq<byte>, bound: nat)
    requires Bounded(s, bound)
    ensures CutFrame(s) != BadType
    ensures CutFrame(s) == NeedMore ==> Frames(s) == [] && Rest(s) == s
    ensures CutFrame(s).Got? ==>
      var c := CutFrame(s);
      var t := s[c.used..];
      && Frames(s) == [c.frame] + Frames(t) && Rest(s) == Rest(t) && Bounded(t, bound)
      && (c.frame.ty == GpExit ==> t == [] == Rest(t) && Frames(t) == [])
  {
  }

  /** The whole receiver over one capture: for every stream of frames of at most TILE_SIZE + 1 bytes
      and every way of cutting it into buffers, the frames handed on are those of the flat stream. */
  method Receive(chunks: seq<Chunk>) returns (got: seq<Frame>)
    requires forall c :: c in chunks ==> WellSized(c)
    requires Bounded(Concat(Datas(chunks)), TILE_SIZE + 1)
    ensures got == Frames(Concat(Datas(chunks)))
  {
    hide CutFrame, Frames, Rest, Bounded, Holds, Concat, Data, Datas;
    var parser := new BinParser();
    ghost var ds := Datas(chunks);
    ghost var stream := Concat(ds);
    got := [];
    assert ds[0..] == ds && [] + stream == stream;
    EmptyStream();
    for i := 0 to |chunks|
      invariant parser.Backed() && parser.Valid() && fresh(parser) && fresh(parser.ring)
      invariant |parser.pending| <= TILE_SIZE
      invariant Bounded(parser.pending + Concat(ds[i..]), TILE_SIZE + 1)
      invariant Rest(parser.pending) == parser.pending
      invariant got + Frames(parser.pending + Concat(ds[i..])) == Frames(stream)
    {
      DrainStep(parser.pending, ds, i);
      var fs := Feed(parser, chunks[i], TILE_SIZE + 1);
      Regrouped(got, fs, Frames(parser.pending + Concat(ds[i + 1..])));
      got := got + fs;
    }
    NoneLater(parser.pending, ds);
    RestHasNoFrames(parser.pending);
  }

  lemma Regrouped(a: seq<Frame>, b: seq<Frame>, c: seq<Frame>)
    ensures a + b + c == a + (b + c)
  {
  }

  // What a buffer adds: the frames of what was left and it, and a rest that is again less than a frame.
  lemma DrainStep(pending: seq<byte>, ds: seq<seq<byte>>, i: nat)
    requires i < |ds| && Bounded(pending + Concat(ds[i..]), TILE_SIZE + 1)
    ensures var p, later := pending + ds[i], Concat(ds[i + 1..]);
            && Bounded(p, TILE_SIZE + 1) && |Rest(p)| <= TILE_SIZE && Rest(Rest(p)) == Rest(p)
            && Bounded(Rest(p) + later, TILE_SIZE + 1)
            && Frames(pending + Concat(ds[i..])) == Frames(p) + Frames(Rest(p) + later)
  {
    hide CutFrame, Frames, Rest, Bounded;
    var p, later := pending + ds[i], Concat(ds[i + 1..]);
    assert ds[i..][1..] == ds[i + 1..];
    assert pending + Concat(ds[i..]) == p + later;
    BoundedPrefix(p, later, TILE_SIZE + 1);
    FramesSplit(p, later);
    RestIdempotent(p);
  }

  lemma NoneLater(pending: seq<byte>, ds: seq<seq<byte>>)
    ensures pending + Concat(ds[|ds|..]) == pending
  {
  }

  lemma EmptyStream()
    ensures Rest([]) == []
  {
  }

  lemma {:induction false} RestIdempotent(s: seq<byte>)
    ensures Rest(Rest(s)) == Rest(s)
    decreases |s|
  {
    if CutFrame(s).Got? {
      RestIdempotent(s[CutFrame(s).used..]);
    }
  }

  lemma RestHasNoFrames(s: seq<byte>)
    requires Rest(s) == s
    ensures Frames(s) == []
  {
    if CutFrame(s).Got? {
      RestShorter(s[CutFrame(s).used..]);
    }
  }

  lemma {:induction false} RestShorter(s: seq<byte>)
    ensures |Rest(s)| <= |s|
    decreases |s|
  {
    if CutFrame(s).Got? {
      RestShorter(s[CutFrame(s).used..]);
    }
  }

  /** End to end: whatever frames are encoded, however the bytes are cut, the receiver hands on those frames. */
  method ReceiveEncoded(fs: seq<Frame>, end: seq<byte>, chunks: seq<Chunk>) returns (got: seq<Frame>)
    requires forall f :: f in fs ==> Payload(f) && HEADER_SIZE + |f.contents| <= TILE_SIZE + 1
    requires forall c :: c in chunks ==> WellSized(c)
    requires Ending(end) && Concat(Datas(chunks)) == Encode(fs) + end
    ensures got == fs + (if end == [] then [] else [Frame(GpExit, [])])
  {
    EncodeRoundTrip(fs, end, TILE_SIZE + 1);
    got := Receive(chunks);
  }

  /** Buffers of 16 KiB, filled up to their size, that bring these bytes. */
  ghost predicate Delivers(chunks: seq<Chunk>, bytes: seq<byte>) {
    && (forall i :: 0 <= i < |chunks| ==> |chunks[i].buffer| == 16_384 && 1 <= chunks[i].size <= 16_384)
    && bytes == Concat(seq(|chunks|, i requires 0 <= i < |chunks| => chunks[i].buffer[..chunks[i].size]))
  }

  /** From the bytes that the probe writes to the frames handed on, whatever the buffers. */
  method ReceiveCapture(fs: seq<Frame>, ghost parts: seq<seq<byte>>, end: seq<byte>, chunks: seq<Chunk>)
    returns (got: seq<Frame>)
    requires |parts| == |fs| && forall i :: 0 <= i < |fs| ==> OnWire(fs[i], parts[i]) && |parts[i]| <= 16_385
    requires EndOnWire(end) && Delivers(chunks, Concat(parts) + end)
    ensures got == fs + (if end == [] then [] else [Frame(GpExit, [])])
  {
    hide Bounded, OnWire, Concat, Frames, Rest;
    CaptureOnWire(fs, parts, end, TILE_SIZE + 1);
    forall c | c in chunks
      ensures WellSized(c)
    {
      var i :| 0 <= i < |chunks| && chunks[i] == c;
    }
    assert Datas(chunks) == seq(|chunks|, i requires 0 <= i < |chunks| => chunks[i].buffer[..chunks[i].size]);
    got := Receive(chunks);
  }

  // ---- beyond the bound ----

  function Pad(data: seq<byte>): (c: Chunk)
    requires 1 <= |data| <= TILE_SIZE
    ensures WellSized(c) && Data(c) == data
  {
    Chunk(data + seq(TILE_SIZE - |data|, _ => 0), |data|)
  }

  /** Frames one byte larger are not safe: over these three chunks the receiver hands on nothing, where the flat
      stream has a frame. The last byte written lands on the first unread one, the type of the frame. */
  method OverrunLosesFrame(bound: nat) returns (chunks: seq<Chunk>, got: seq<Frame>)
    requires bound >= TILE_SIZE + 2
    ensures (forall c :: c in chunks ==> WellSized(c)) && Bounded(Concat(Datas(chunks)), bound)
    ensures got == [] && Frames(Concat(Datas(chunks))) == [BigFrame()]
  {
    hide Bounded, Frames, Rest, CutFrame, EncodeFrame, BigStream, OverrunChunks, Holds, HeaderType;
    var cs := OverrunChunks();
    chunks := [Pad(cs[0]), Pad(cs[1]), Pad(cs[2])];
    OverrunDatas(chunks, cs);
    OverrunConcat();
    BigStreamBounded(bound);
    FirstByte();
    BigPrefix(1, bound);
    BigPrefix(TILE_SIZE + 1, bound);
    var parser := new BinParser();
    assert [] + cs[0] == cs[0];
    got := Feed(parser, chunks[0], bound);
    var more := Feed(parser, chunks[1], bound);
    got := got + more;
    ghost var before := parser.cells;
    var ok := parser.Load(chunks[2].buffer, chunks[2].size);
    TypeOverwritten(before, parser.cells);
    var r := parser.Next();
    got := got + HandedOn(r);
  }

  /** The frame that a call of `next` gives to the receiver, if it gives one. */
  function HandedOn(r: Result<ParserState>): seq<Frame> {
    if r.Ok? && r.value.Readable? then [Frame(r.value.ty, r.value.contents)] else []
  }

  lemma OverrunDatas(chunks: seq<Chunk>, cs: seq<seq<byte>>)
    requires |cs| == 3 && |cs[0]| == 1 && |cs[1]| == |cs[2]| == TILE_SIZE
    requires chunks == [Pad(cs[0]), Pad(cs[1]), Pad(cs[2])]
    ensures (forall c :: c in chunks ==> WellSized(c)) && Datas(chunks) == cs
  {
  }

  // The type of the frame was 1, and is 0 when its first byte is.
  lemma TypeOverwritten(ring: seq<byte>, ring': seq<byte>)
    requires |ring| == |ring'| == RING_SIZE
    requires Holds(ring, 0, EncodeFrame(BigFrame())[..TILE_SIZE + 1])
    requires Holds(ring', TILE_SIZE + 1, OverrunChunks()[2]) && Outside(ring, ring', TILE_SIZE + 1, TILE_SIZE)
    ensures forall h: seq<byte> :: |h| == HEADER_SIZE && Holds(ring', 0, h) ==> HeaderType(h) == GpInvalid
  {
    var e := EncodeFrame(BigFrame());
    assert OverrunChunks()[2][TILE_SIZE - 1] == e[TILE_SIZE - 2] == 0;
    assert ring'[0] == 0;
    assert e[1] == e[2] == e[3] == 0;
    forall k | 1 <= k < 4
      ensures ring'[k] == 0
    {
      assert !Covers(TILE_SIZE + 1, TILE_SIZE, k);
      assert ring[k] == e[..TILE_SIZE + 1][k];
    }
    forall h: seq<byte> | |h| == HEADER_SIZE && Holds(ring', 0, h)
      ensures HeaderType(h) == GpInvalid
    {
      assert h[0] == h[1] == h[2] == h[3] == 0;
    }
  }
}
