// Counter statistics per device and field, folded event by event and merged across files
// (server/dashboard/analysis.py, `_stat_counter_event` and `_merge_counter_stat`).
module CounterStat {
  import opened Wrappers

  /** The value of one argument of a counter event; only numbers are counted. */
  datatype Arg = Num(value: real) | Other

  /** A counter event: its time and its arguments in the order of the dictionary. */
  datatype Event = Event(ts: real, args: seq<(string, Arg)>)

  datatype Stat = Stat(
    count: nat, sum: real, max: real, min: real,
    first: real, last: real, firstTs: real, lastTs: real, bits: int)

  type Stats = map<string, map<string, Stat>>

  // ---- keys ----

  predicate Digit(c: char) { '0' <= c <= '9' }

  /** `str.isdigit`, over ASCII digits. */
  predicate IsDigit(s: string) {
    s != "" && forall i :: 0 <= i < |s| ==> Digit(s[i])
  }

  /** `str.rfind`: the last index below `n` at which `key` continues with `part`. */
  function RFind(key: string, part: string, n: nat): (r: Option<nat>)
    requires n <= |key| + 1
    ensures r.Some? ==> r.value < n && r.value + |part| <= |key|
  {
    if n == 0 then None
    else if n - 1 + |part| <= |key| && key[n - 1..n - 1 + |part|] == part then Some(n - 1)
    else RFind(key, part, n - 1)
  }

  /** `_split_dcgm_key`: the field and the device. */
  function SplitKey(key: string): (string, string) {
    match RFind(key, "_gpu", |key| + 1)
    case None => (key, "process")
    case Some(i) =>
      if i > 0 && IsDigit(key[i + 4..]) then (key[..i], "gpu" + key[i + 4..]) else (key, "process")
  }

  predicate IsReasons(field: string) {
    |field| >= |"EVENT_REASONS"| && field[|field| - |"EVENT_REASONS"|..] == "EVENT_REASONS"
  }

  /** `int(value)`, which truncates towards zero. */
  function Trunc(v: real): int {
    if v >= 0.0 then v.Floor else -((-v).Floor)
  }

  // ---- or-ing integers, bit by bit and of any sign ----

  function Magnitude(a: int): nat { if a >= 0 then a else -a - 1 }

  function Or(a: int, b: int): int
    decreases Magnitude(a)
  {
    if a == 0 then b
    else if a == -1 then -1
    else 2 * Or(a / 2, b / 2) + (if a % 2 == 1 || b % 2 == 1 then 1 else 0)
  }

  lemma HalfOr(a: int, b: int)
    ensures Or(a, b) / 2 == Or(a / 2, b / 2)
    ensures Or(a, b) % 2 == if a % 2 == 1 || b % 2 == 1 then 1 else 0
  {
  }

  lemma {:induction false} OrAssociative(a: int, b: int, c: int)
    ensures Or(Or(a, b), c) == Or(a, Or(b, c))
    decreases Magnitude(a)
  {
    HalfOr(a, b);
    HalfOr(Or(a, b), c);
    HalfOr(b, c);
    HalfOr(a, Or(b, c));
    if a != 0 && a != -1 {
      OrAssociative(a / 2, b / 2, c / 2);
    }
  }

  lemma {:induction false} OrZero(a: int)
    ensures Or(a, 0) == a && Or(0, a) == a
    decreases Magnitude(a)
  {
    if a != 0 && a != -1 {
      OrZero(a / 2);
    }
  }

  // ---- one field ----

  function Bits(field: string, value: real): int {
    if IsReasons(field) then Trunc(value) else 0
  }

  function MaxOf(a: real, b: real): real { if a < b then b else a }

  function MinOf(a: real, b: real): real { if b < a then b else a }

  function One(field: string, value: real, ts: real): Stat {
    Stat(1, value, value, value, value, value, ts, ts, Bits(field, value))
  }

  /** A further sample of a field: the later of two equally timed ones replaces the earlier, as first and as last. */
  function Accumulate(s: Stat, field: string, value: real, ts: real): Stat {
    Stat(
      s.count + 1, s.sum + value, MaxOf(s.max, value), MinOf(s.min, value),
      if ts <= s.firstTs then value else s.first,
      if ts >= s.lastTs then value else s.last,
      if ts <= s.firstTs then ts else s.firstTs,
      if ts >= s.lastTs then ts else s.lastTs,
      if IsReasons(field) then Or(s.bits, Trunc(value)) else s.bits)
  }

  function Sampled(prior: Option<Stat>, field: string, value: real, ts: real): Stat {
    if prior.None? then One(field, value, ts) else Accumulate(prior.value, field, value, ts)
  }

  /** Two files' statistics of a field, `o` before `s`. */
  function Join(o: Stat, s: Stat): Stat {
    Stat(
      o.count + s.count, o.sum + s.sum, MaxOf(o.max, s.max), MinOf(o.min, s.min),
      if s.firstTs <= o.firstTs then s.first else o.first,
      if s.lastTs >= o.lastTs then s.last else o.last,
      if s.firstTs <= o.firstTs then s.firstTs else o.firstTs,
      if s.lastTs >= o.lastTs then s.lastTs else o.lastTs,
      Or(o.bits, s.bits))
  }

  function JoinMaybe(o: Option<Stat>, s: Option<Stat>): Option<Stat> {
    if o.None? then s else if s.None? then o else Some(Join(o.value, s.value))
  }

  // ---- all fields ----

  function Get(m: Stats, dev: string, field: string): Option<Stat> {
    if dev in m && field in m[dev] then Some(m[dev][field]) else None
  }

  function Put(m: Stats, dev: string, field: string, s: Stat): Stats {
    m[dev := (if dev in m then m[dev] else map[])[field := s]]
  }

  /** An argument counts when it is a number and not the event's name. */
  predicate Counts(rawKey: string, arg: Arg) { rawKey != "name" && arg.Num? }

  function AddSample(m: Stats, ts: real, rawKey: string, arg: Arg): Stats {
    if !Counts(rawKey, arg) then m
    else
      var (field, dev) := SplitKey(rawKey);
      Put(m, dev, field, Sampled(Get(m, dev, field), field, arg.value, ts))
  }

  /** `_stat_counter_event`. */
  function AddEvent(m: Stats, e: Event): Stats { AddArgs(m, e, |e.args|) }

  function AddArgs(m: Stats, e: Event, n: nat): Stats
    requires n <= |e.args|
  {
    if n == 0 then m else AddSample(AddArgs(m, e, n - 1), e.ts, e.args[n - 1].0, e.args[n - 1].1)
  }

  function Fold(m: Stats, es: seq<Event>): Stats {
    if es == [] then m else AddEvent(Fold(m, es[..|es| - 1]), es[|es| - 1])
  }

  method StatCounterEvent(m: Stats, e: Event) returns (m': Stats)
    ensures m' == AddEvent(m, e)
  {
    hide SplitKey;
    m' := m;
    for i := 0 to |e.args|
      invariant m' == AddArgs(m, e, i)
    {
      var (rawKey, arg) := e.args[i];
      if rawKey == "name" || arg.Other? {
        continue;
      }
      var (field, dev) := SplitKey(rawKey);
      var bucket := if dev in m' then m'[dev] else map[];
      if field !in bucket {
        bucket := bucket[field := One(field, arg.value, e.ts)];
      } else {
        bucket := bucket[field := Accumulate(bucket[field], field, arg.value, e.ts)];
      }
      m' := m'[dev := bucket];
    }
  }

  /** The merge, device by device and field by field. */
  function MergeBucket(a: map<string, Stat>, b: map<string, Stat>): map<string, Stat> {
    map f | f in a.Keys + b.Keys ::
      if f !in a then b[f] else if f !in b then a[f] else Join(a[f], b[f])
  }

  function Merge(a: Stats, b: Stats): Stats {
    map d | d in a.Keys + b.Keys ::
      MergeBucket(if d in a then a[d] else map[], if d in b then b[d] else map[])
  }

  method MergeCounterStat(a: Stats, b: Stats) returns (merged: Stats)
    ensures merged == Merge(a, b)
  {
    hide Merge, MergeBucket;
    merged := a;
    var devices := b.Keys;
    while devices != {}
      invariant devices <= b.Keys
      invariant merged.Keys == a.Keys + (b.Keys - devices)
      invariant forall d :: (
        Bucket(merged, d) == if d in b && d !in devices then MergeBucket(Bucket(a, d), b[d]) else Bucket(a, d))
      decreases devices
    {
      var d :| d in devices;
      assert Bucket(b, d) == b[d];
      var bucket := MergeInto(if d in merged then merged[d] else map[], b[d]);
      merged := merged[d := bucket];
      devices := devices - {d};
    }
    forall d
      ensures (d in merged <==> d in Merge(a, b)) && Bucket(merged, d) == Bucket(Merge(a, b), d)
    {
      MergeBuckets(a, b, d);
      MergeNothing(Bucket(a, d));
    }
    SameBuckets(merged, Merge(a, b));
  }

  lemma MergeNothing(a: map<string, Stat>)
    ensures MergeBucket(a, map[]) == a == MergeBucket(map[], a)
  {
  }

  method MergeInto(o: map<string, Stat>, s: map<string, Stat>) returns (bucket: map<string, Stat>)
    ensures bucket == MergeBucket(o, s)
  {
    hide Join;
    bucket := o;
    var fields := s.Keys;
    while fields != {}
      invariant fields <= s.Keys
      invariant bucket.Keys == o.Keys + (s.Keys - fields)
      invariant forall f :: f in bucket ==>
        bucket[f] == if f in s && f !in fields then MergeBucket(o, s)[f] else o[f]
      decreases fields
    {
      var f :| f in fields;
      bucket := bucket[f := if f in bucket then Join(bucket[f], s[f]) else s[f]];
      fields := fields - {f};
    }
  }

  // ---- the homomorphism ----

  /** Adding a sample after a merge is merging with the sample added. */
  lemma AccumulateJoins(o: Stat, s: Stat, field: string, value: real, ts: real)
    ensures Accumulate(Join(o, s), field, value, ts) == Join(o, Accumulate(s, field, value, ts))
  {
    OrAssociative(o.bits, s.bits, Trunc(value));
  }

  lemma AccumulateIsJoin(o: Stat, field: string, value: real, ts: real)
    ensures Accumulate(o, field, value, ts) == Join(o, One(field, value, ts))
  {
    OrZero(o.bits);
  }

  lemma MergeGet(a: Stats, b: Stats, dev: string, field: string)
    ensures Get(Merge(a, b), dev, field) == JoinMaybe(Get(a, dev, field), Get(b, dev, field))
  {
  }

  // Every device the fold knows has a field, so statistics are what `Get` shows of them.
  predicate Full(m: Stats) {
    forall d :: d in m ==> m[d] != map[]
  }

  lemma SameStats(a: Stats, b: Stats)
    requires Full(a) && Full(b)
    requires forall d, f :: Get(a, d, f) == Get(b, d, f)
    ensures a == b
  {
    forall d
      ensures d in a <==> d in b
    {
      if d in a {
        var f :| f in a[d];
        assert Get(a, d, f).Some?;
        assert Get(b, d, f).Some?;
      }
      if d in b {
        var f :| f in b[d];
        assert Get(b, d, f).Some?;
        assert Get(a, d, f).Some?;
      }
    }
    forall d | d in a
      ensures a[d] == b[d]
    {
      forall f
        ensures f in a[d] <==> f in b[d]
        ensures f in a[d] ==> a[d][f] == b[d][f]
      {
        assert Get(a, d, f) == Get(b, d, f);
      }
    }
  }

  lemma AddSampleGet(m: Stats, ts: real, rawKey: string, arg: Arg, dev: string, field: string)
    ensures Get(AddSample(m, ts, rawKey, arg), dev, field) ==
      if Counts(rawKey, arg) && SplitKey(rawKey) == (field, dev)
      then Some(Sampled(Get(m, dev, field), field, arg.value, ts))
      else Get(m, dev, field)
  {
  }

  lemma AddSampleMerges(a: Stats, b: Stats, ts: real, rawKey: string, arg: Arg)
    requires Full(a) && Full(b)
    ensures AddSample(Merge(a, b), ts, rawKey, arg) == Merge(a, AddSample(b, ts, rawKey, arg))
    ensures Full(AddSample(b, ts, rawKey, arg))
  {
    hide *;
    var b' := AddSample(b, ts, rawKey, arg);
    var left, right := AddSample(Merge(a, b), ts, rawKey, arg), Merge(a, b');
    MergeFull(a, b);
    AddSampleFull(b, ts, rawKey, arg);
    AddSampleFull(Merge(a, b), ts, rawKey, arg);
    MergeFull(a, b');
    forall d, f
      ensures Get(left, d, f) == Get(right, d, f)
    {
      AddSampleGet(b, ts, rawKey, arg, d, f);
      AddSampleGet(Merge(a, b), ts, rawKey, arg, d, f);
      MergeGet(a, b, d, f);
      MergeGet(a, b', d, f);
      if Counts(rawKey, arg) && SplitKey(rawKey) == (f, d) {
        NumWhenCounted(rawKey, arg);
        SampleJoins(Get(a, d, f), Get(b, d, f), f, arg.value, ts);
      }
    }
    SameStats(left, right);
  }

  lemma NumWhenCounted(rawKey: string, arg: Arg)
    requires Counts(rawKey, arg)
    ensures arg.Num?
  {
  }

  lemma SampleJoins(a: Option<Stat>, b: Option<Stat>, field: string, value: real, ts: real)
    ensures Some(Sampled(JoinMaybe(a, b), field, value, ts)) == JoinMaybe(a, Some(Sampled(b, field, value, ts)))
  {
    if a.Some? {
      if b.Some? {
        AccumulateJoins(a.value, b.value, field, value, ts);
      } else {
        AccumulateIsJoin(a.value, field, value, ts);
      }
    }
  }

  lemma MergeFull(a: Stats, b: Stats)
    requires Full(a) && Full(b)
    ensures Full(Merge(a, b))
  {
  }

  lemma AddSampleFull(m: Stats, ts: real, rawKey: string, arg: Arg)
    requires Full(m)
    ensures Full(AddSample(m, ts, rawKey, arg))
  {
    hide SplitKey;
    if Counts(rawKey, arg) {
      var (field, dev) := SplitKey(rawKey);
      assert field in AddSample(m, ts, rawKey, arg)[dev];
    }
  }

  lemma {:induction false} AddArgsMerges(a: Stats, b: Stats, e: Event, n: nat)
    requires Full(a) && Full(b) && n <= |e.args|
    ensures AddArgs(Merge(a, b), e, n) == Merge(a, AddArgs(b, e, n)) && Full(AddArgs(b, e, n))
  {
    hide Merge, AddSample, Full;
    if n > 0 {
      AddArgsMerges(a, b, e, n - 1);
      AddSampleMerges(a, AddArgs(b, e, n - 1), e.ts, e.args[n - 1].0, e.args[n - 1].1);
    }
  }

  lemma {:induction false} FoldMerges(a: Stats, b: Stats, es: seq<Event>)
    requires Full(a) && Full(b)
    ensures Fold(Merge(a, b), es) == Merge(a, Fold(b, es)) && Full(Fold(b, es))
  {
    hide Merge, AddArgs, Full;
    if es != [] {
      FoldMerges(a, b, es[..|es| - 1]);
      AddArgsMerges(a, Fold(b, es[..|es| - 1]), es[|es| - 1], |es[|es| - 1].args|);
    }
  }

  lemma MergeEmpty(m: Stats)
    ensures Merge(m, map[]) == m && Merge(map[], m) == m
  {
    hide Merge, MergeBucket;
    forall d
      ensures (d in Merge(m, map[]) <==> d in m) && Bucket(Merge(m, map[]), d) == Bucket(m, d)
      ensures (d in Merge(map[], m) <==> d in m) && Bucket(Merge(map[], m), d) == Bucket(m, d)
    {
      MergeBuckets(m, map[], d);
      MergeBuckets(map[], m, d);
      MergeNothing(Bucket(m, d));
    }
    SameBuckets(Merge(m, map[]), m);
    SameBuckets(Merge(map[], m), m);
  }

  lemma {:induction false} FoldAppend(m: Stats, a: seq<Event>, b: seq<Event>)
    ensures Fold(m, a + b) == Fold(Fold(m, a), b)
    decreases |b|
  {
    if b == [] {
      assert a + b == a;
    } else {
      assert (a + b)[..|a + b| - 1] == a + b[..|b| - 1];
      FoldAppend(m, a, b[..|b| - 1]);
    }
  }

  /** The statistics of two event streams, merged, are the statistics of one after the other: every field,
      ties in time and or-ed reason bits included. */
  lemma FoldHomomorphism(a: seq<Event>, b: seq<Event>)
    ensures Fold(map[], a + b) == Merge(Fold(map[], a), Fold(map[], b))
  {
    hide Merge, Fold;
    FoldAppend(map[], a, b);
    MergeEmpty(Fold(map[], a));
    FoldFull(a);
    NothingFull();
    FoldMerges(Fold(map[], a), map[], b);
  }

  lemma NothingFull()
    ensures Full(map[])
  {
  }

  lemma FoldFull(es: seq<Event>)
    ensures Full(Fold(map[], es))
  {
    NothingFull();
    FoldMerges(map[], map[], es);
  }

  // ---- merging alone ----

  lemma JoinAssociative(x: Stat, y: Stat, z: Stat)
    ensures Join(Join(x, y), z) == Join(x, Join(y, z))
  {
    OrAssociative(x.bits, y.bits, z.bits);
  }

  lemma MergeBucketAssociative(x: map<string, Stat>, y: map<string, Stat>, z: map<string, Stat>)
    ensures MergeBucket(MergeBucket(x, y), z) == MergeBucket(x, MergeBucket(y, z))
  {
    hide Join;
    forall f | f in x && f in y && f in z
      ensures Join(Join(x[f], y[f]), z[f]) == Join(x[f], Join(y[f], z[f]))
    {
      JoinAssociative(x[f], y[f], z[f]);
    }
  }

  function Bucket(m: Stats, dev: string): map<string, Stat> {
    if dev in m then m[dev] else map[]
  }

  lemma MergeBuckets(a: Stats, b: Stats, dev: string)
    ensures Bucket(Merge(a, b), dev) == MergeBucket(Bucket(a, dev), Bucket(b, dev))
    ensures Merge(a, b).Keys == a.Keys + b.Keys
  {
  }

  /** Merging statistics of any number of files does not depend on how they are grouped. */
  lemma MergeAssociative(x: Stats, y: Stats, z: Stats)
    ensures Merge(Merge(x, y), z) == Merge(x, Merge(y, z))
  {
    hide Merge, MergeBucket;
    var left, right := Merge(Merge(x, y), z), Merge(x, Merge(y, z));
    forall d
      ensures d in left <==> d in right
      ensures Bucket(left, d) == Bucket(right, d)
    {
      MergeBuckets(x, y, d);
      MergeBuckets(Merge(x, y), z, d);
      MergeBuckets(y, z, d);
      MergeBuckets(x, Merge(y, z), d);
      MergeBucketAssociative(Bucket(x, d), Bucket(y, d), Bucket(z, d));
    }
    SameBuckets(left, right);
  }

  lemma SameBuckets(a: Stats, b: Stats)
    requires forall d :: (d in a <==> d in b) && Bucket(a, d) == Bucket(b, d)
    ensures a == b
  {
  }

  // ---- what the statistics mean ----

  /** The samples of one field in the order they arrive: value and time. */
  function SamplesOf(es: seq<Event>, dev: string, field: string): seq<(real, real)> {
    if es == [] then []
    else SamplesOf(es[..|es| - 1], dev, field) + SamplesIn(es[|es| - 1], |es[|es| - 1].args|, dev, field)
  }

  function SamplesIn(e: Event, n: nat, dev: string, field: string): seq<(real, real)>
    requires n <= |e.args|
  {
    if n == 0 then []
    else
      var (rawKey, arg) := e.args[n - 1];
      SamplesIn(e, n - 1, dev, field) +
      if Counts(rawKey, arg) && SplitKey(rawKey) == (field, dev) then [(arg.value, e.ts)] else []
  }

  function Total(xs: seq<(real, real)>): real {
    if xs == [] then 0.0 else Total(xs[..|xs| - 1]) + xs[|xs| - 1].0
  }

  predicate Bit(a: int, k: nat)
    decreases k
  {
    if k == 0 then a % 2 == 1 else Bit(a / 2, k - 1)
  }

  lemma {:induction false} BitOr(a: int, b: int, k: nat)
    ensures Bit(Or(a, b), k) <==> Bit(a, k) || Bit(b, k)
    decreases k
  {
    HalfOr(a, b);
    if k > 0 {
      BitOr(a / 2, b / 2, k - 1);
    }
  }

  /** The `i`th sample is the last of those of least time. */
  predicate FirstAt(xs: seq<(real, real)>, i: nat) {
    i < |xs| && forall j :: 0 <= j < |xs| ==> if j <= i then xs[i].1 <= xs[j].1 else xs[i].1 < xs[j].1
  }

  /** The `i`th sample is the last of those of greatest time. */
  predicate LastAt(xs: seq<(real, real)>, i: nat) {
    i < |xs| && forall j :: 0 <= j < |xs| ==> if j <= i then xs[i].1 >= xs[j].1 else xs[i].1 > xs[j].1
  }

  predicate PeakOf(xs: seq<(real, real)>, peak: real, low: real) {
    && (exists i :: 0 <= i < |xs| && xs[i].0 == peak)
    && (exists i :: 0 <= i < |xs| && xs[i].0 == low)
    && forall i :: 0 <= i < |xs| ==> low <= xs[i].0 <= peak
  }

  ghost predicate Summarises(s: Stat, xs: seq<(real, real)>) {
    && s.count == |xs|
    && s.sum == Total(xs)
    && PeakOf(xs, s.max, s.min)
    && (exists i: nat :: FirstAt(xs, i) && xs[i] == (s.first, s.firstTs))
    && (exists i: nat :: LastAt(xs, i) && xs[i] == (s.last, s.lastTs))
  }

  ghost predicate BitsOf(s: Stat, field: string, xs: seq<(real, real)>) {
    forall k: nat ::
      Bit(s.bits, k) <==> IsReasons(field) && exists i :: 0 <= i < |xs| && Bit(Trunc(xs[i].0), k)
  }

  lemma SampledSummarises(prior: Option<Stat>, field: string, xs: seq<(real, real)>, value: real, ts: real)
    requires if prior.None? then xs == [] else Summarises(prior.value, xs)
    ensures Summarises(Sampled(prior, field, value, ts), xs + [(value, ts)])
  {
    hide Or;
    var ys := xs + [(value, ts)];
    assert ys[..|xs|] == xs && ys[|xs|] == (value, ts);
    if prior.None? {
      assert Total(xs) == 0.0;
      assert FirstAt(ys, 0) && LastAt(ys, 0);
    } else {
      var s := prior.value;
      SampledPeaks(xs, s.max, s.min, value, ts);
      SampledFirst(xs, s, value, ts);
      SampledLast(xs, s, value, ts);
    }
  }

  lemma SampledPeaks(xs: seq<(real, real)>, peak: real, low: real, value: real, ts: real)
    requires PeakOf(xs, peak, low)
    ensures PeakOf(xs + [(value, ts)], MaxOf(peak, value), MinOf(low, value))
  {
    var ys := xs + [(value, ts)];
    var i :| 0 <= i < |xs| && xs[i].0 == peak;
    var j :| 0 <= j < |xs| && xs[j].0 == low;
    assert ys[i].0 == peak && ys[j].0 == low && ys[|xs|].0 == value;
  }

  lemma SampledFirst(xs: seq<(real, real)>, s: Stat, value: real, ts: real)
    requires exists i: nat :: FirstAt(xs, i) && xs[i] == (s.first, s.firstTs)
    ensures var ys := xs + [(value, ts)];
            exists i: nat :: FirstAt(ys, i) && ys[i] == if ts <= s.firstTs then (value, ts) else (s.first, s.firstTs)
  {
    var i: nat :| FirstAt(xs, i) && xs[i] == (s.first, s.firstTs);
    var ys := xs + [(value, ts)];
    assert FirstAt(ys, if ts <= s.firstTs then |xs| else i);
  }

  lemma SampledLast(xs: seq<(real, real)>, s: Stat, value: real, ts: real)
    requires exists i: nat :: LastAt(xs, i) && xs[i] == (s.last, s.lastTs)
    ensures var ys := xs + [(value, ts)];
            exists i: nat :: LastAt(ys, i) && ys[i] == if ts >= s.lastTs then (value, ts) else (s.last, s.lastTs)
  {
    var i: nat :| LastAt(xs, i) && xs[i] == (s.last, s.lastTs);
    var ys := xs + [(value, ts)];
    assert LastAt(ys, if ts >= s.lastTs then |xs| else i);
  }

  lemma SampledBits(prior: Option<Stat>, field: string, xs: seq<(real, real)>, value: real, ts: real)
    requires if prior.None? then xs == [] else BitsOf(prior.value, field, xs)
    ensures BitsOf(Sampled(prior, field, value, ts), field, xs + [(value, ts)])
  {
    hide Or, Trunc;
    var ys, s' := xs + [(value, ts)], Sampled(prior, field, value, ts);
    forall k: nat
      ensures Bit(s'.bits, k) <==> IsReasons(field) && exists i :: 0 <= i < |ys| && Bit(Trunc(ys[i].0), k)
    {
      assert ys[|xs|].0 == value;
      NoBit(k);
      if prior.Some? {
        BitOr(prior.value.bits, Trunc(value), k);
        if j :| 0 <= j < |xs| && Bit(Trunc(xs[j].0), k) {
          assert ys[j] == xs[j];
        }
      }
    }
  }

  lemma {:induction false} NoBit(k: nat)
    ensures !Bit(0, k)
  {
    if k > 0 {
      NoBit(k - 1);
    }
  }

  ghost predicate Meaning(m: Stats, dev: string, field: string, xs: seq<(real, real)>) {
    var s := Get(m, dev, field);
    if s.None? then xs == [] else Summarises(s.value, xs) && BitsOf(s.value, field, xs)
  }

  lemma {:induction false} AddArgsMeans(
    m: Stats, e: Event, n: nat, dev: string, field: string, xs: seq<(real, real)>)
    requires n <= |e.args|
    requires Meaning(m, dev, field, xs)
    ensures Meaning(AddArgs(m, e, n), dev, field, xs + SamplesIn(e, n, dev, field))
  {
    hide SplitKey, Summarises, BitsOf, AddSample, Sampled, Get;
    if n == 0 {
      assert xs + [] == xs;
    } else {
      AddArgsMeans(m, e, n - 1, dev, field, xs);
      var (rawKey, arg) := e.args[n - 1];
      var m', ys := AddArgs(m, e, n - 1), xs + SamplesIn(e, n - 1, dev, field);
      AddSampleGet(m', e.ts, rawKey, arg, dev, field);
      if Counts(rawKey, arg) && SplitKey(rawKey) == (field, dev) {
        SampledSummarises(Get(m', dev, field), field, ys, arg.value, e.ts);
        SampledBits(Get(m', dev, field), field, ys, arg.value, e.ts);
        assert xs + SamplesIn(e, n, dev, field) == ys + [(arg.value, e.ts)];
      } else {
        assert xs + SamplesIn(e, n, dev, field) == ys;
      }
    }
  }

  /** What the folded statistics say of a field: how many samples it has, their sum, extremes and or-ed bits,
      and the values at its first and last time, the latest arrival where times are equal. */
  lemma {:induction false} FoldMeans(es: seq<Event>, dev: string, field: string)
    ensures Meaning(Fold(map[], es), dev, field, SamplesOf(es, dev, field))
  {
    hide AddArgs, Summarises, BitsOf, SamplesIn;
    if es != [] {
      var n := |es| - 1;
      FoldMeans(es[..n], dev, field);
      AddArgsMeans(Fold(map[], es[..n]), es[n], |es[n].args|, dev, field, SamplesOf(es[..n], dev, field));
    }
  }

  // ---- what a sample is ----

  predicate Decimal(d: string) {
    d != "" && forall c :: c in d ==> c in "0123456789"
  }

  lemma DecimalIs(d: string)
    ensures Decimal(d) <==> IsDigit(d)
  {
    if Decimal(d) {
      forall i | 0 <= i < |d|
        ensures Digit(d[i])
      {
        assert d[i] in d;
      }
    }
    if IsDigit(d) {
      forall c | c in d
        ensures c in "0123456789"
      {
        var i :| 0 <= i < |d| && d[i] == c;
        assert "0123456789"[c as int - '0' as int] == c;
      }
    }
  }

  predicate OccursAt(key: string, part: string, j: nat) {
    j + |part| <= |key| && key[j..j + |part|] == part
  }

  /** A key that ends in `_gpu` and digits, behind a field, is that field's on that device. */
  lemma DeviceKey(field: string, d: string)
    requires field != "" && Decimal(d)
    ensures SplitKey(field + "_gpu" + d) == (field, "gpu" + d)
  {
    var key := field + "_gpu" + d;
    DecimalIs(d);
    forall j: nat | |field| < j <= |key|
      ensures !OccursAt(key, "_gpu", j)
    {
      if j + 4 <= |key| {
        assert key[j..j + 4][0] == key[j] && "_gpu"[0] == '_';
        assert key[j] == if j < |field| + 4 then "_gpu"[j - |field|] else d[j - |field| - 4];
      }
    }
    assert key[|field|..|field| + 4] == "_gpu" && key[..|field|] == field && key[|field| + 4..] == d;
    assert OccursAt(key, "_gpu", |field|);
    RFindIs(key, "_gpu", |key| + 1, |field|);
  }

  lemma {:induction false} RFindIs(key: string, part: string, n: nat, i: nat)
    requires i < n <= |key| + 1 && OccursAt(key, part, i)
    requires forall j: nat :: i < j < n ==> !OccursAt(key, part, j)
    ensures RFind(key, part, n) == Some(i)
  {
    if n - 1 > i {
      assert !OccursAt(key, part, n - 1);
      RFindIs(key, part, n - 1, i);
    }
  }

  /** Every other key is a field of the process itself. */
  lemma ProcessKey(key: string)
    requires forall field, d :: field != "" && Decimal(d) ==> key != field + "_gpu" + d
    ensures SplitKey(key) == (key, "process")
  {
    var r := RFind(key, "_gpu", |key| + 1);
    if r.Some? {
      RFindAt(key, "_gpu", |key| + 1);
      var field, d := key[..r.value], key[r.value + 4..];
      assert key == field + "_gpu" + d;
      DecimalIs(d);
    }
  }

  lemma {:induction false} RFindAt(key: string, part: string, n: nat)
    requires n <= |key| + 1 && RFind(key, part, n).Some?
    ensures OccursAt(key, part, RFind(key, part, n).value)
  {
    if !OccursAt(key, part, n - 1) {
      RFindAt(key, part, n - 1);
    }
  }

  /** An argument is a sample of the field and device of its key if it is a number, and not the event's name. */
  lemma SampleIs(ts: real, key: string, arg: Arg, dev: string, field: string)
    ensures SamplesIn(Event(ts, [(key, arg)]), 1, dev, field) ==
      if key != "name" && arg.Num? && SplitKey(key) == (field, dev) then [(arg.value, ts)] else []
  {
    hide SplitKey;
  }

  /** Clock event reasons are the fields whose name ends so. */
  lemma ReasonsIff(field: string)
    ensures IsReasons(field) <==> exists prefix :: field == prefix + "EVENT_REASONS"
  {
    if IsReasons(field) {
      assert field == field[..|field| - |"EVENT_REASONS"|] + "EVENT_REASONS";
    }
  }

  /** The integer part of a value, towards zero. */
  lemma TruncIs(v: real, n: int)
    ensures v >= 0.0 ==> (Trunc(v) == n <==> n as real <= v < (n + 1) as real)
    ensures v < 0.0 ==> (Trunc(v) == n <==> (n - 1) as real < v <= n as real)
  {
  }
}
