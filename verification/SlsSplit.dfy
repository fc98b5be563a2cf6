// How the SLS client cuts a batch into requests (slsrs/src/client.rs).
module SlsSplit {
  import opened Bytes
  import opened Wrappers
  import opened SlsProtobuf

  const MAX_ENTRIES := 4096
  const MAX_BYTES := 3 * 1024 * 1024

  function ContentEstimates(ps: seq<KeyValue>): nat {
    if ps == [] then 0 else |ps[0].key| + |ps[0].value| + 8 + ContentEstimates(ps[1..])
  }

  function Estimate(e: LogEntry): nat { 8 + ContentEstimates(e.contents) + 4 }

  method EstimateEntry(e: LogEntry) returns (total: nat)
    ensures total == Estimate(e)
  {
    total := 8;
    assert e.contents[0..] == e.contents;
    for i := 0 to |e.contents|
      invariant total + ContentEstimates(e.contents[i..]) == 8 + ContentEstimates(e.contents)
    {
      assert e.contents[i..][1..] == e.contents[i + 1..];
      total := total + |e.contents[i].key| + |e.contents[i].value| + 8;
    }
    total := total + 4;
  }

  function Estimates(es: seq<LogEntry>): nat {
    if es == [] then 0 else Estimate(es[0]) + Estimates(es[1..])
  }

  function Flatten(chunks: seq<seq<LogEntry>>): seq<LogEntry> {
    if chunks == [] then [] else chunks[0] + Flatten(chunks[1..])
  }

  /** Within both caps. */
  predicate Capped(chunk: seq<LogEntry>) {
    |chunk| <= MAX_ENTRIES && Estimates(chunk) <= MAX_BYTES
  }

  predicate AllCapped(chunks: seq<seq<LogEntry>>) {
    forall i :: 0 <= i < |chunks| ==> Capped(chunks[i])
  }

  predicate NoneEmpty(chunks: seq<seq<LogEntry>>) {
    forall i :: 0 <= i < |chunks| ==> chunks[i] != []
  }

  predicate Oversized(e: LogEntry) { Estimate(e) > MAX_BYTES }

  /** The chunks the loop still makes of `es`, with `current` begun. */
  function Greedy(current: seq<LogEntry>, es: seq<LogEntry>): seq<seq<LogEntry>>
    decreases |es|
  {
    if es == [] then (if current == [] then [] else [current])
    else if |current| >= MAX_ENTRIES || Estimates(current) + Estimate(es[0]) > MAX_BYTES
    then [current] + Greedy([es[0]], es[1..])
    else Greedy(current + [es[0]], es[1..])
  }

  /** `split_entries`: `None` is the `BatchTooLarge` error. */
  method SplitEntries(es: seq<LogEntry>) returns (r: Option<seq<seq<LogEntry>>>)
    ensures r.None? <==> exists e :: e in es && Estimate(e) > 3_145_728
    ensures r.Some? ==> r.value == Greedy([], es)
  {
    hide Estimate;
    var chunks: seq<seq<LogEntry>>, current: seq<LogEntry>, currentBytes := [], [], 0;
    assert es[0..] == es;
    for i := 0 to |es|
      invariant currentBytes == Estimates(current)
      invariant chunks + Greedy(current, es[i..]) == Greedy([], es)
      invariant forall k :: 0 <= k < i ==> !Oversized(es[k])
    {
      var entryBytes := EstimateEntry(es[i]);
      if entryBytes > MAX_BYTES {
        assert es[i] in es && Oversized(es[i]);
        return None;
      }
      assert es[i..][1..] == es[i + 1..] && es[i..][0] == es[i] && [] + [es[i]] == [es[i]];
      EstimatesSnoc(current, es[i]);
      if |current| >= MAX_ENTRIES || currentBytes + entryBytes > MAX_BYTES {
        chunks := chunks + [current];
        current, currentBytes := [], 0;
      }
      currentBytes := currentBytes + entryBytes;
      current := current + [es[i]];
    }
    if current != [] {
      chunks := chunks + [current];
    }
    return Some(chunks);
  }

  lemma {:induction false} EstimatesAppend(a: seq<LogEntry>, b: seq<LogEntry>)
    ensures Estimates(a + b) == Estimates(a) + Estimates(b)
  {
    if a == [] {
      assert a + b == b;
    } else {
      assert (a + b)[1..] == a[1..] + b;
      EstimatesAppend(a[1..], b);
    }
  }

  lemma EstimatesSnoc(a: seq<LogEntry>, e: LogEntry)
    ensures Estimates(a + [e]) == Estimates(a) + Estimate(e)
  {
    EstimatesAppend(a, [e]);
    assert [e][1..] == [];
  }

  /** The chunks are the entries in order, none is empty and each is within both caps. */
  lemma {:induction false} GreedySound(current: seq<LogEntry>, es: seq<LogEntry>)
    requires Capped(current) && forall e :: e in es ==> !Oversized(e)
    ensures var chunks := Greedy(current, es);
            Flatten(chunks) == current + es && NoneEmpty(chunks) && AllCapped(chunks)
    decreases |es|
  {
    hide Estimate;
    if es == [] {
      if current != [] {
        assert [current][1..] == [];
      }
    } else {
      EstimatesSnoc(current, es[0]);
      EstimatesSnoc([], es[0]);
      assert [] + [es[0]] == [es[0]];
      assert es[0] in es && !Oversized(es[0]) && Capped([es[0]]);
      if |current| >= MAX_ENTRIES || Estimates(current) + Estimate(es[0]) > MAX_BYTES {
        var rest := Greedy([es[0]], es[1..]);
        GreedySound([es[0]], es[1..]);
        assert ([current] + rest)[1..] == rest;
        assert current + ([es[0]] + es[1..]) == current + es;
      } else {
        GreedySound(current + [es[0]], es[1..]);
        assert current + [es[0]] + es[1..] == current + es;
      }
    }
  }

  /** The caps in numbers: 4096 entries and 3 MiB of estimates. */
  lemma GreedyWithin(es: seq<LogEntry>, i: nat)
    requires (forall e :: e in es ==> !Oversized(e)) && i < |Greedy([], es)|
    ensures |Greedy([], es)[i]| <= 4096 && Estimates(Greedy([], es)[i]) <= 3_145_728
  {
    hide Greedy, Oversized, Estimates, Estimate, Flatten;
    NoneCapped();
    GreedySound([], es);
    assert Capped(Greedy([], es)[i]);
  }

  lemma NoneCapped()
    ensures Capped([])
  {
  }

  /** Each chunk is as long as it can be: with the next entry it would be over one of the caps. */
  lemma {:induction false} GreedyFull(current: seq<LogEntry>, es: seq<LogEntry>, i: nat)
    requires i + 1 < |Greedy(current, es)|
    ensures var (chunk, next) := (Greedy(current, es)[i], Greedy(current, es)[i + 1]);
            next != [] && (|chunk| + 1 > 4096 || Estimates(chunk + [next[0]]) > 3_145_728)
    decreases |es|
  {
    hide Estimate;
    if es != [] {
      if |current| >= MAX_ENTRIES || Estimates(current) + Estimate(es[0]) > MAX_BYTES {
        StartsWith([es[0]], es[1..]);
        if i == 0 {
          EstimatesSnoc(current, es[0]);
        } else {
          GreedyFull([es[0]], es[1..], i - 1);
        }
      } else {
        GreedyFull(current + [es[0]], es[1..], i);
      }
    }
  }

  lemma {:induction false} StartsWith(current: seq<LogEntry>, es: seq<LogEntry>)
    requires current != []
    ensures Greedy(current, es) != [] && current <= Greedy(current, es)[0]
    decreases |es|
  {
    hide Estimate, Estimates;
    if es != [] && !(|current| >= MAX_ENTRIES || Estimates(current) + Estimate(es[0]) > MAX_BYTES) {
      StartsWith(current + [es[0]], es[1..]);
    }
  }

  // A part of a chunk within the caps is within them.
  lemma CappedPart(a: seq<LogEntry>, b: seq<LogEntry>, c: seq<LogEntry>)
    requires Capped(a + b + c)
    ensures Capped(b) && Capped(a + b)
  {
    EstimatesAppend(a + b, c);
    EstimatesAppend(a, b);
  }

  /** Greedy stays ahead: with `current` begun, it needs no more chunks for `current + es` than any in-order
      partition within the caps needs for some longer suffix `front + current + es`. */
  lemma {:induction false} GreedyAhead(front: seq<LogEntry>, current: seq<LogEntry>, es: seq<LogEntry>,
                                       partition: seq<seq<LogEntry>>)
    requires AllCapped(partition) && Flatten(partition) == front + current + es
    ensures |Greedy(current, es)| <= |partition|
    decreases |es|, |partition|
  {
    hide Capped;
    var whole := front + current + es;
    if es == [] && current == [] {
    } else {
      assert whole != [];
      var p, rest := partition[0], partition[1..];
      assert Flatten(partition) == p + Flatten(rest);
      assert Capped(p) && AllCapped(rest);
      if |p| <= |front| {
        // the first chunk ends before `current` begins
        PrefixTail(p, Flatten(rest), front, current, es);
        GreedyAhead(front[|p|..], current, es, rest);
      } else {
        GreedyStep(front, current, es, partition, p, rest);
      }
    }
  }

  lemma PrefixTail(p: seq<LogEntry>, tail: seq<LogEntry>, front: seq<LogEntry>, current: seq<LogEntry>,
      es: seq<LogEntry>)
    requires p + tail == front + current + es && |p| <= |front|
    ensures tail == front[|p|..] + current + es
  {
    assert (p + tail)[|p|..] == tail;
    assert (front + current + es)[|p|..] == front[|p|..] + current + es;
  }

  // The first chunk reaches beyond `front`.
  lemma {:induction false} GreedyStep(front: seq<LogEntry>, current: seq<LogEntry>, es: seq<LogEntry>,
                                      partition: seq<seq<LogEntry>>, p: seq<LogEntry>, rest: seq<seq<LogEntry>>)
    requires partition != [] && p == partition[0] && rest == partition[1..]
    requires Capped(p) && AllCapped(partition) && AllCapped(rest)
    requires p + Flatten(rest) == front + current + es && |p| > |front|
    ensures |Greedy(current, es)| <= |partition|
    decreases |es|, |partition|, 0
  {
    if es == [] {
    } else if |current| >= MAX_ENTRIES || Estimates(current) + Estimate(es[0]) > MAX_BYTES {
      // `current` is full, so the first chunk ends no later than it
      if |p| > |front + current| {
        assert p[..|front| + |current| + 1] == front + current + [es[0]] by {
          assert p == (front + current + es)[..|p|];
        }
        var end := |front| + |current| + 1;
        assert p == front + (current + [es[0]]) + p[end..];
        CappedPart(front, current + [es[0]], p[end..]);
        EstimatesSnoc(current, es[0]);
        assert false;
      }
      var tail := (front + current)[|p|..];
      assert Flatten(rest) == tail + [es[0]] + es[1..] by {
        assert (p + Flatten(rest))[|p|..] == Flatten(rest);
        assert (front + current + es)[|p|..] == tail + es;
        assert es == [es[0]] + es[1..];
      }
      GreedyAhead(tail, [es[0]], es[1..], rest);
    } else {
      assert front + current + es == front + (current + [es[0]]) + es[1..];
      assert Flatten(partition) == p + Flatten(rest);
      GreedyAhead(front, current + [es[0]], es[1..], partition);
    }
  }

  /** The split is optimal: no in-order partition within both caps has fewer chunks. */
  lemma SplitOptimal(es: seq<LogEntry>, partition: seq<seq<LogEntry>>)
    requires AllCapped(partition) && Flatten(partition) == es
    ensures |Greedy([], es)| <= |partition|
  {
    assert [] + [] + es == es;
    GreedyAhead([], [], es, partition);
  }

  // ---- is the estimate a bound? ----

  lemma {:induction false} VarintLength(v: nat)
    ensures v < 0x80 ==> |Varint(v)| == 1
    ensures 0x80 <= v < 0x4000 ==> |Varint(v)| == 2
    ensures 0x4000 <= v < 0x20_0000 ==> |Varint(v)| == 3
    ensures 0x20_0000 <= v < 0x1000_0000 ==> |Varint(v)| == 4
    ensures 0x1000_0000 <= v < 0x8_0000_0000 ==> |Varint(v)| == 5
    ensures v >= 0x8_0000_0000 ==> |Varint(v)| >= 6
  {
    if v >= 0x80 {
      VarintLength(v / 0x80);
    }
  }

  /** The bytes one entry adds to the encoding of its group. */
  function EntryBytes(e: LogEntry): nat { |LenDelim(1, EncodeLog(e))| }

  function EntriesBytes(es: seq<LogEntry>): nat {
    if es == [] then 0 else EntryBytes(es[0]) + EntriesBytes(es[1..])
  }

  lemma {:induction false} LogsBytes(es: seq<LogEntry>)
    ensures |EncodeLogs(es)| == EntriesBytes(es)
  {
    hide LenDelim, EncodeLog;
    if es != [] {
      LogsBytes(es[1..]);
    }
  }

  /** What a content is charged, and what it costs. */
  function ContentCharge(p: KeyValue): nat { |p.key| + |p.value| + 8 }

  function ContentCost(p: KeyValue): nat { |LenDelim(2, EncodePair(p))| }

  /** The charge covers the cost of a content exactly when key or value is short of 128 bytes and the
      encoded content short of 16384. */
  lemma ContentChargeExact(p: KeyValue)
    ensures ContentCost(p) <= ContentCharge(p) <==>
      (|p.key| < 0x80 || |p.value| < 0x80) && |EncodePair(p)| < 0x4000
  {
    VarintLength(|p.key|);
    VarintLength(|p.value|);
    VarintLength(|EncodePair(p)|);
    VarintLength(1 * 8 + WIRE_LEN);
    VarintLength(2 * 8 + WIRE_LEN);
  }

  predicate Modest(p: KeyValue) {
    (|p.key| < 0x80 || |p.value| < 0x80) && |EncodePair(p)| < 0x4000
  }

  // ---- the estimate of a whole entry, from lengths alone ----

  /** How many bytes a varint takes: one for every seven bits. */
  function VarLen(v: nat): (n: nat)
    ensures n == |Varint(v)|
  {
    if v < 0x80 then 1 else 1 + VarLen(v / 0x80)
  }

  function PairLength(p: KeyValue): (n: nat)
    ensures n == |EncodePair(p)|
  {
    2 + VarLen(|p.key|) + |p.key| + VarLen(|p.value|) + |p.value|
  }

  function PairLengths(ps: seq<KeyValue>): (n: nat)
    ensures n == |EncodePairs(2, ps)|
  {
    if ps == [] then 0 else 1 + VarLen(PairLength(ps[0])) + PairLength(ps[0]) + PairLengths(ps[1..])
  }

  function LogLength(e: LogEntry): (n: nat)
    ensures n == |EncodeLog(e)|
  {
    1 + VarLen(e.time) + PairLengths(e.contents)
  }

  /** By how much the varints of the contents take more than the five bytes that their charges leave for them. */
  function Excess(ps: seq<KeyValue>): int {
    if ps == [] then 0
    else VarLen(|ps[0].key|) + VarLen(|ps[0].value|) + VarLen(PairLength(ps[0])) - 5 + Excess(ps[1..])
  }

  lemma {:induction false} ExcessIs(ps: seq<KeyValue>)
    ensures Excess(ps) == PairLengths(ps) - ContentEstimates(ps)
  {
    hide VarLen;
    if ps != [] {
      ExcessIs(ps[1..]);
    }
  }

  /** The estimate of an entry covers what the entry adds to its group if and only if the varints of the entry do
      not take more than the estimate leaves for them: ten bytes for time and length, five for each content. */
  lemma EstimateExact(e: LogEntry)
    ensures EntryBytes(e) <= Estimate(e) <==> VarLen(e.time) + VarLen(LogLength(e)) + Excess(e.contents) <= 10
  {
    hide VarLen, PairLengths, Excess, EncodePairs, EncodeLog;
    EntryBytesIs(e);
    ExcessIs(e.contents);
  }

  lemma EntryBytesIs(e: LogEntry)
    ensures EntryBytes(e) == 1 + VarLen(LogLength(e)) + LogLength(e)
  {
    hide VarLen, EncodeLog, LogLength;
    VarintLength(1 * 8 + WIRE_LEN);
  }

  lemma {:induction false} ModestExcess(ps: seq<KeyValue>)
    requires forall p :: p in ps ==> Modest(p)
    ensures Excess(ps) <= 0
  {
    if ps != [] {
      assert Modest(ps[0]);
      ModestPair(ps[0]);
      hide VarLen, Modest;
      ModestExcess(ps[1..]);
    }
  }

  lemma ModestPair(p: KeyValue)
    requires Modest(p)
    ensures VarLen(|p.key|) + VarLen(|p.value|) + VarLen(PairLength(p)) <= 5
  {
    hide VarLen;
    VarintLength(|p.key|);
    VarintLength(|p.value|);
    VarintLength(PairLength(p));
  }

  /** So for an entry of modest contents the estimate is a bound; with a byte to spare below 256 MiB. */
  lemma EstimateBounds(e: LogEntry)
    requires forall p :: p in e.contents ==> Modest(p)
    ensures LogLength(e) < 0x8_0000_0000 ==> EntryBytes(e) <= Estimate(e)
    ensures LogLength(e) < 0x1000_0000 ==> EntryBytes(e) < Estimate(e)
  {
    hide VarLen, PairLengths, Excess, EncodePairs, EncodeLog;
    ModestExcess(e.contents);
    ExcessIs(e.contents);
    EntryBytesIs(e);
    VarintLength(e.time);
    VarintLength(LogLength(e));
  }

  lemma ModestFits(e: LogEntry)
    requires (forall p :: p in e.contents ==> Modest(p)) && !Oversized(e)
    ensures EntryBytes(e) < Estimate(e)
  {
    hide VarLen, PairLengths, Excess, EncodePairs, EncodeLog;
    EstimateBounds(e);
    ModestExcess(e.contents);
    ExcessIs(e.contents);
    VarintLength(e.time);
  }

  lemma {:induction false} EntriesBounded(es: seq<LogEntry>)
    requires forall e :: e in es ==> !Oversized(e) && forall p :: p in e.contents ==> Modest(p)
    ensures EntriesBytes(es) + |es| <= Estimates(es)
  {
    hide EntryBytes, Estimate, Oversized, Modest;
    if es != [] {
      ModestFits(es[0]);
      EntriesBounded(es[1..]);
    }
  }

  datatype Outcome = Accepted | BatchTooLarge

  /** The checks of `put_log_group`, up to the compression. */
  function PutLogGroup(g: LogGroup): Outcome {
    if g.logs == [] then Accepted
    else if |g.logs| > MAX_ENTRIES then BatchTooLarge
    else if |EncodeGroup(g)| > MAX_BYTES then BatchTooLarge
    else Accepted
  }

  /** By how much the entries of a chunk encode to more than their estimates. */
  function Overshoot(es: seq<LogEntry>): int {
    if es == [] then 0
    else VarLen(es[0].time) + VarLen(LogLength(es[0])) + Excess(es[0].contents) - 10 + Overshoot(es[1..])
  }

  lemma {:induction false} OvershootIs(es: seq<LogEntry>)
    ensures EntriesBytes(es) == Estimates(es) + Overshoot(es)
  {
    hide VarLen, LogLength, Excess, EntryBytes, Estimate;
    if es != [] {
      EntryOvershoot(es[0]);
      OvershootIs(es[1..]);
    }
  }

  lemma EntryOvershoot(e: LogEntry)
    ensures EntryBytes(e) == Estimate(e) + VarLen(e.time) + VarLen(LogLength(e)) + Excess(e.contents) - 10
  {
    hide VarLen, PairLengths, Excess, EncodePairs, EncodeLog;
    EntryBytesIs(e);
    ExcessIs(e.contents);
  }

  /** What topic, source and tags add to a group. */
  function TextLength(t: Option<Text>): nat {
    if t.Some? then 1 + VarLen(|t.value|) + |t.value| else 0
  }

  lemma TextLengthIs(field: nat, t: Option<Text>)
    requires field < 16
    ensures |EncodeText(field, t)| == TextLength(t)
  {
    hide VarLen;
    VarintLength(field * 8 + WIRE_LEN);
  }

  lemma {:induction false} TagsLength(ps: seq<KeyValue>)
    ensures |EncodePairs(6, ps)| == PairLengths(ps)
  {
    hide VarLen, PairLength, EncodePair;
    if ps != [] {
      VarintLength(6 * 8 + WIRE_LEN);
      TagsLength(ps[1..]);
    }
  }

  /** A chunk that the split may make passes the request if and only if its estimate, what its entries overshoot
      theirs by, and what topic, source and tags add stay within the cap together. */
  lemma RequestExact(g: LogGroup)
    requires g.logs != [] && Capped(g.logs)
    ensures PutLogGroup(g) == Accepted <==>
      Estimates(g.logs) + Overshoot(g.logs) + TextLength(g.topic) + TextLength(g.source) + PairLengths(g.tags)
      <= 3_145_728
  {
    hide VarLen, Estimates, Overshoot, EncodeLogs, EncodePairs, EncodeText, TextLength;
    LogsBytes(g.logs);
    OvershootIs(g.logs);
    TextLengthIs(3, g.topic);
    TextLengthIs(4, g.source);
    TagsLength(g.tags);
  }

  /** So a chunk of modest entries passes, with a byte for each of them to spare for topic, source and tags. */
  lemma ChunkFitsRequest(g: LogGroup)
    requires g.logs != [] && Capped(g.logs) && forall e :: e in g.logs ==> forall p :: p in e.contents ==> Modest(p)
    requires TextLength(g.topic) + TextLength(g.source) + PairLengths(g.tags) <= |g.logs|
    ensures PutLogGroup(g) == Accepted
  {
    hide Modest, Estimate, Estimates, Overshoot, TextLength, PairLengths, EntriesBytes, PutLogGroup;
    forall e | e in g.logs
      ensures !Oversized(e)
    {
      PartCapped(g.logs, e);
    }
    EntriesBounded(g.logs);
    OvershootIs(g.logs);
    RequestExact(g);
  }

  lemma {:induction false} PartCapped(es: seq<LogEntry>, e: LogEntry)
    requires e in es
    ensures Estimate(e) <= Estimates(es)
  {
    hide Estimate;
    if e != es[0] {
      PartCapped(es[1..], e);
    }
  }

  /** The estimate is no bound in general: there is an entry whose estimate is exactly the cap, which passes the
      split, and whose request is then refused as too large. */
  lemma EstimateCanFallShort() returns (e: LogEntry)
    ensures Estimate(e) == 3_145_728 && Greedy([], [e]) == [[e]]
    ensures PutLogGroup(LogGroup([e], None, None, [])) == BatchTooLarge
  {
    var key := PlainText(1);
    var value := PlainText(MAX_BYTES - 21);
    var p := KeyValue(key, value);
    e := LogEntry(1_700_000_000, [p]);
    LargeContent(p);
    LargeEntry(e, p);
    hide Excess, LogLength, VarLen, PutLogGroup, Estimate, PairLengths;
    assert [e][1..] == [] && [] + [e] == [e];
    assert Greedy([], [e]) == Greedy([e], []);
    assert Overshoot([e]) == 3 + Overshoot([]);
    NothingAdded();
    RequestExact(LogGroup([e], None, None, []));
  }

  lemma NothingAdded()
    ensures PairLengths([]) == 0
  {
  }

  lemma LargeContent(p: KeyValue)
    requires |p.key| == 1 && |p.value| == MAX_BYTES - 21
    ensures PairLength(p) == MAX_BYTES - 13
    ensures VarLen(|p.key|) == 1 && VarLen(|p.value|) == 4 == VarLen(PairLength(p))
  {
    hide VarLen;
    VarintLength(|p.key|);
    VarintLength(|p.value|);
    VarintLength(PairLength(p));
  }

  lemma LargeEntry(e: LogEntry, p: KeyValue)
    requires e == LogEntry(1_700_000_000, [p])
    requires |p.key| == 1 && |p.value| == MAX_BYTES - 21 && PairLength(p) == MAX_BYTES - 13
    requires VarLen(|p.key|) == 1 && VarLen(|p.value|) == 4 == VarLen(PairLength(p))
    ensures Estimate(e) == MAX_BYTES
    ensures VarLen(e.time) + VarLen(LogLength(e)) + Excess(e.contents) - 10 == 3
  {
    hide VarLen, PairLength;
    assert e.contents[1..] == [];
    VarintLength(e.time);
    assert PairLengths(e.contents) == 1 + 4 + PairLength(p) + PairLengths([]);
    assert Excess(e.contents) == 4 + Excess([]);
    assert ContentEstimates(e.contents) == |p.key| + |p.value| + 8 + ContentEstimates([]);
    VarintLength(LogLength(e));
  }

  /** Texts of every length exist. */
  lemma {:induction false} PlainText(n: nat) returns (t: Text)
    ensures |t| == n
  {
    if n == 0 {
      t := [];
    } else {
      var u := PlainText(n - 1);
      var s: seq<byte> := [0x78] + u;
      assert s[1..] == u;
      t := s;
    }
  }
}
