// The memory curve: memory events bucketed by time slot, then thinned out to a bounded number of points
// (server/dashboard/analysis.py, the fold in `_statics_cpu_gpu_util` and `_flush_memory_buckets`).
module MemoryCurve {
  import opened Wrappers
  import Orders

  /** Width of a time slot in microseconds, and how many points a curve may have. */
  const MEMORY_INTERVAL := 5000
  const MEMORY_MAX_POINTS := 600

  /** A memory event of the device; totals the event does not carry are missing. */
  datatype Event = Event(ts: real, alloc: Option<int>, reserved: Option<int>)

  datatype Totals = Totals(alloc: int, reserved: int)

  type Buckets = map<int, Totals>

  /** `int(ts)` truncates towards zero; the division by a positive number rounds down. */
  function Slot(ts: real): int {
    (if ts >= 0.0 then ts.Floor else -((-ts).Floor)) / MEMORY_INTERVAL
  }

  predicate Counts(e: Event) { e.alloc.Some? && e.reserved.Some? }

  // ---- the fold into buckets ----

  predicate InSlot(e: Event, slot: int) { Counts(e) && Slot(e.ts) == slot }

  /** Both totals of `b` are reached by some reading, and none goes above them. */
  ghost predicate PeakOf(b: Totals, xs: seq<Totals>) {
    && (exists x :: x in xs && x.alloc == b.alloc)
    && (exists x :: x in xs && x.reserved == b.reserved)
    && forall x :: x in xs ==> x.alloc <= b.alloc && x.reserved <= b.reserved
  }

  function Raise(b: Totals, x: Totals): Totals {
    Totals(Max(b.alloc, x.alloc), Max(b.reserved, x.reserved))
  }

  /** What the events of one slot say, in the order of the events. */
  function Readings(es: seq<Event>, slot: int): (r: seq<Totals>) {
    if es == [] then []
    else
      var (e, rest) := (es[|es| - 1], Readings(es[..|es| - 1], slot));
      if InSlot(e, slot) then rest + [Totals(e.alloc.value, e.reserved.value)] else rest
  }

  /** A bucket for every slot with a reading and no other, holding both peaks of the slot. */
  ghost predicate Peaks(b: Buckets, es: seq<Event>) {
    && (forall slot :: slot in b <==> Readings(es, slot) != [])
    && (forall slot :: slot in b ==> PeakOf(b[slot], Readings(es, slot)))
  }

  lemma RaisedPeak(b: Totals, xs: seq<Totals>, x: Totals)
    requires PeakOf(b, xs)
    ensures PeakOf(Raise(b, x), xs + [x])
  {
  }

  lemma FirstPeak(x: Totals)
    ensures PeakOf(x, [x])
  {
  }

  lemma ReadingsStep(es: seq<Event>, i: nat, slot: int)
    requires i < |es|
    ensures Readings(es[..i + 1], slot) == Readings(es[..i], slot) +
      if InSlot(es[i], slot) then [Totals(es[i].alloc.value, es[i].reserved.value)] else []
  {
    assert es[..i + 1][..i] == es[..i];
  }

  method FoldBuckets(es: seq<Event>) returns (memBuckets: Buckets)
    ensures Peaks(memBuckets, es)
  {
    hide Slot, Readings;
    memBuckets := map[];
    NoReadings();
    for i := 0 to |es|
      invariant Peaks(memBuckets, es[..i])
    {
      var before, e := memBuckets, es[i];
      if Counts(e) {
        var slot := Slot(e.ts);
        if slot !in memBuckets {
          memBuckets := memBuckets[slot := Totals(e.alloc.value, e.reserved.value)];
        } else {
          var cur := memBuckets[slot];
          if e.alloc.value > cur.alloc {
            cur := cur.(alloc := e.alloc.value);
          }
          if e.reserved.value > cur.reserved {
            cur := cur.(reserved := e.reserved.value);
          }
          memBuckets := memBuckets[slot := cur];
        }
      }
      BucketStep(before, memBuckets, es, i);
    }
    assert es[..|es|] == es;
  }

  lemma NoReadings()
    ensures forall slot :: Readings([], slot) == []
  {
  }

  lemma BucketStep(b: Buckets, b': Buckets, es: seq<Event>, i: nat)
    requires i < |es| && Peaks(b, es[..i])
    requires b' == if !Counts(es[i]) then b else
      var (slot, x) := (Slot(es[i].ts), Totals(es[i].alloc.value, es[i].reserved.value));
      b[slot := if slot !in b then x else Raise(b[slot], x)]
    ensures Peaks(b', es[..i + 1])
  {
    hide Slot, Readings, PeakOf;
    forall slot
      ensures slot in b' <==> Readings(es[..i + 1], slot) != []
      ensures slot in b' ==> PeakOf(b'[slot], Readings(es[..i + 1], slot))
    {
      ReadingsStep(es, i, slot);
      var xs := Readings(es[..i], slot);
      assert xs + [] == xs;
      if InSlot(es[i], slot) {
        var x := Totals(es[i].alloc.value, es[i].reserved.value);
        if slot in b {
          RaisedPeak(b[slot], xs, x);
        } else {
          FirstPeak(x);
          assert xs + [x] == [x];
        }
      }
    }
  }

  /** The buckets are those of the events as a bag: merged traces need not come in order of time. */
  lemma OrderIndependent(b: Buckets, c: Buckets, es: seq<Event>, fs: seq<Event>)
    requires multiset(es) == multiset(fs)
    requires Peaks(b, es) && Peaks(c, fs)
    ensures b == c
  {
    hide Readings, PeakOf;
    assert forall e :: e in es <==> e in multiset(es);
    assert forall e :: e in fs <==> e in multiset(fs);
    forall slot
      ensures slot in b <==> slot in c
      ensures slot in b && slot in c ==> b[slot] == c[slot]
    {
      SameReadings(es, fs, slot);
      SameReadings(fs, es, slot);
      NotEmpty(Readings(es, slot), Readings(fs, slot));
      if slot in b && slot in c {
        SamePeak(b[slot], Readings(es, slot), c[slot], Readings(fs, slot));
      }
    }
  }

  lemma NotEmpty(xs: seq<Totals>, ys: seq<Totals>)
    requires forall x :: x in xs <==> x in ys
    ensures xs == [] <==> ys == []
  {
    if xs != [] { assert xs[0] in ys; }
    if ys != [] { assert ys[0] in xs; }
  }

  lemma SamePeak(b: Totals, xs: seq<Totals>, c: Totals, ys: seq<Totals>)
    requires forall x :: x in xs <==> x in ys
    requires PeakOf(b, xs) && PeakOf(c, ys)
    ensures b == c
  {
  }

  /** A reading of a slot is one of an event in that slot. */
  lemma {:induction false} ReadingsOfBag(es: seq<Event>, slot: int)
    ensures forall x :: x in Readings(es, slot) <==>
      exists e :: e in es && InSlot(e, slot) && x == Totals(e.alloc.value, e.reserved.value)
  {
    hide Slot;
    if es != [] {
      var (e, rest) := (es[|es| - 1], es[..|es| - 1]);
      ReadingsOfBag(rest, slot);
      assert es == rest + [e];
      forall x
        ensures x in Readings(es, slot) <==>
          exists e :: e in es && InSlot(e, slot) && x == Totals(e.alloc.value, e.reserved.value)
      {
        if x in Readings(rest, slot) {
          var f :| f in rest && InSlot(f, slot) && x == Totals(f.alloc.value, f.reserved.value);
          assert f in es;
        }
        if f :| f in es && InSlot(f, slot) && x == Totals(f.alloc.value, f.reserved.value) {
          assert f == e || f in rest;
        }
      }
    }
  }

  lemma SameReadings(es: seq<Event>, fs: seq<Event>, slot: int)
    requires forall e :: e in es ==> e in fs
    ensures forall x :: x in Readings(es, slot) ==> x in Readings(fs, slot)
  {
    hide Slot, Readings;
    ReadingsOfBag(es, slot);
    ReadingsOfBag(fs, slot);
  }

  // ---- sorting the slots ----

  predicate Below(a: int, b: int) { a < b }

  ghost predicate Ascending(xs: seq<int>) { Orders.Ascending(xs, Below) }

  /** `sorted` of the slots. */
  ghost function SortedSlots(s: set<int>): (r: seq<int>)
    ensures Ascending(r) && |r| == |s| && forall x :: x in r <==> x in s
  {
    Orders.Sorted(s, Below)
  }

  // ---- windows ----

  function Stride(n: nat, maxPoints: nat): nat
    requires maxPoints > 0
  {
    Max(1, (n + maxPoints - 1) / maxPoints)
  }

  /** Consecutive stretches of `stride` slots, the last one possibly shorter. */
  function Windows(slots: seq<int>, stride: nat): seq<seq<int>>
    requires stride > 0
  {
    if slots == [] then []
    else if |slots| <= stride then [slots]
    else [slots[..stride]] + Windows(slots[stride..], stride)
  }

  function Flatten(ws: seq<seq<int>>): seq<int> {
    if ws == [] then [] else ws[0] + Flatten(ws[1..])
  }

  /** The windows are non-empty, cover the slots in order, and are full except the last. */
  lemma {:induction false} WindowsPartition(slots: seq<int>, stride: nat)
    requires stride > 0
    ensures var ws := Windows(slots, stride);
            && Flatten(ws) == slots
            && (forall k :: 0 <= k < |ws| ==> 0 < |ws[k]| <= stride)
            && (forall k :: 0 <= k < |ws| - 1 ==> |ws[k]| == stride)
  {
    if |slots| > stride {
      WindowsPartition(slots[stride..], stride);
    }
  }

  lemma {:induction false} WindowCount(slots: seq<int>, stride: nat, m: nat)
    requires stride > 0 && |slots| <= m * stride
    ensures |Windows(slots, stride)| <= m
    decreases m
  {
    if m > 0 && |slots| > stride {
      assert (m - 1) * stride == m * stride - stride;
      WindowCount(slots[stride..], stride, m - 1);
    }
  }

  lemma StrideCovers(n: nat, maxPoints: nat)
    requires maxPoints > 0
    ensures n <= maxPoints * Stride(n, maxPoints)
  {
  }

  lemma {:induction false} WindowsAscend(slots: seq<int>, stride: nat, j: nat, k: nat)
    requires stride > 0 && Ascending(slots) && j < k < |Windows(slots, stride)|
    ensures forall x, y :: x in Windows(slots, stride)[j] && y in Windows(slots, stride)[k] ==> x < y
  {
    var rest := slots[stride..];
    if j > 0 {
      WindowsAscend(rest, stride, j - 1, k - 1);
    } else {
      WindowsPartition(rest, stride);
      InFlatten(Windows(rest, stride), k - 1);
    }
  }

  lemma {:induction false} InFlatten(ws: seq<seq<int>>, k: nat)
    requires k < |ws|
    ensures forall x :: x in ws[k] ==> x in Flatten(ws)
  {
    if k > 0 {
      InFlatten(ws[1..], k - 1);
    }
  }

  lemma {:induction false} FlattenIn(ws: seq<seq<int>>, x: int) returns (k: nat)
    requires x in Flatten(ws)
    ensures k < |ws| && x in ws[k]
  {
    if x in ws[0] {
      k := 0;
    } else {
      k := FlattenIn(ws[1..], x);
      k := k + 1;
    }
  }

  // ---- the curve ----

  predicate Known(b: Buckets, slots: seq<int>) {
    forall i :: 0 <= i < |slots| ==> slots[i] in b
  }

  function TotalsOf(b: Buckets, slots: seq<int>): (r: seq<Totals>)
    requires Known(b, slots)
    ensures |r| == |slots| && forall i :: 0 <= i < |r| ==> r[i] == b[slots[i]]
  {
    seq(|slots|, i requires 0 <= i < |slots| => b[slots[i]])
  }

  lemma TotalsSnoc(b: Buckets, slots: seq<int>)
    requires slots != [] && Known(b, slots)
    ensures var n := |slots| - 1;
            Known(b, slots[..n]) && TotalsOf(b, slots) == TotalsOf(b, slots[..n]) + [b[slots[n]]]
  {
  }

  /** The two maxima over a window. */
  function WindowPeak(b: Buckets, window: seq<int>): (r: Totals)
    requires window != [] && Known(b, window)
    ensures PeakOf(r, TotalsOf(b, window))
  {
    var n := |window| - 1;
    if n == 0 then
      FirstPeak(b[window[0]]);
      assert TotalsOf(b, window) == [b[window[0]]];
      b[window[0]]
    else
      RaisedPeak(WindowPeak(b, window[..n]), TotalsOf(b, window[..n]), b[window[n]]);
      TotalsSnoc(b, window);
      Raise(WindowPeak(b, window[..n]), b[window[n]])
  }

  /** One point of the curve: the peaks of a window and the window's start in milliseconds. */
  datatype Point = Point(peak: Totals, time: int)

  /** Each window of the sorted slots gives a point, timed from the first slot of all. */
  ghost predicate Curve(b: Buckets, maxPoints: nat, ps: seq<Point>)
    requires maxPoints > 0
  {
    var slots := SortedSlots(b.Keys);
    var ws := Windows(slots, Stride(|slots|, maxPoints));
    CurveOf(b, ws, if slots == [] then 0 else slots[0], ps)
  }

  ghost predicate CurveOf(b: Buckets, ws: seq<seq<int>>, base: int, ps: seq<Point>) {
    && |ps| == |ws|
    && forall k :: 0 <= k < |ws| ==>
      && ws[k] != [] && Known(b, ws[k])
      && PeakOf(ps[k].peak, TotalsOf(b, ws[k]))
      && ps[k].time == (ws[k][0] - base) * MEMORY_INTERVAL / 1000
  }

  lemma KnownSlice(b: Buckets, slots: seq<int>, i: nat, n: nat)
    requires Known(b, slots) && i <= |slots|
    ensures Known(b, Upto(slots[i..], n))
  {
  }

  lemma SortedKnown(b: Buckets)
    ensures Known(b, SortedSlots(b.Keys))
  {
  }

  function Upto(slots: seq<int>, n: nat): seq<int> { if n < |slots| then slots[..n] else slots }

  function Beyond(slots: seq<int>, n: nat): seq<int> { if n < |slots| then slots[n..] else [] }

  lemma WindowsStep(slots: seq<int>, stride: nat)
    requires stride > 0 && slots != []
    ensures Windows(slots, stride) == [Upto(slots, stride)] + Windows(Beyond(slots, stride), stride)
  {
  }

  function PointOf(b: Buckets, window: seq<int>, base: int): Point
    requires window != [] && Known(b, window)
  {
    Point(WindowPeak(b, window), (window[0] - base) * MEMORY_INTERVAL / 1000)
  }

  lemma CurveGrows(b: Buckets, ws: seq<seq<int>>, base: int, ps: seq<Point>, w: seq<int>)
    requires CurveOf(b, ws, base, ps)
    requires w != [] && Known(b, w)
    ensures CurveOf(b, ws + [w], base, ps + [PointOf(b, w, base)])
  {
    hide PeakOf, Known;
  }

  method SortSlots(s: set<int>) returns (slots: seq<int>)
    ensures slots == SortedSlots(s)
  {
    slots := Orders.Sort(s, Below);
  }

  method FlushMemoryBuckets(memBuckets: Buckets, maxPoints: nat := MEMORY_MAX_POINTS) returns (ps: seq<Point>)
    requires maxPoints > 0
    ensures Curve(memBuckets, maxPoints, ps)
  {
    hide PeakOf, Windows, CurveOf, Known, SortedSlots, Ascending, Stride, Upto, Beyond, PointOf;
    ps := [];
    if memBuckets == map[] {
      NoWindows(memBuckets, maxPoints);
      return;
    }
    var slots := SortSlots(memBuckets.Keys);
    var stride := Stride(|slots|, maxPoints);
    StridePositive(|slots|, maxPoints);
    SortedKnown(memBuckets);
    var base := slots[0];
    var i := 0;
    ghost var done, rest := [], slots;
    NoCurve(memBuckets, base);
    while i < |slots|
      invariant i < |slots| ==> rest == slots[i..]
      invariant i >= |slots| ==> rest == []
      invariant done + Windows(rest, stride) == Windows(slots, stride)
      invariant CurveOf(memBuckets, done, base, ps)
    {
      var window := Upto(slots[i..], stride);
      FirstWindow(memBuckets, slots, i, stride);
      CurveGrows(memBuckets, done, base, ps, window);
      ps, done, rest := ps + [PointOf(memBuckets, window, base)], done + [window], Beyond(rest, stride);
      i := i + stride;
    }
    WindowsOfNothing(stride);
    assert done + [] == done;
  }

  // The window at `i`, and what is left behind it.
  lemma FirstWindow(b: Buckets, slots: seq<int>, i: nat, stride: nat)
    requires i < |slots| && stride > 0 && Known(b, slots)
    ensures Upto(slots[i..], stride) != [] && Known(b, Upto(slots[i..], stride))
    ensures Windows(slots[i..], stride) == [Upto(slots[i..], stride)] + Windows(Beyond(slots[i..], stride), stride)
    ensures Beyond(slots[i..], stride) == if i + stride < |slots| then slots[i + stride..] else []
  {
    hide Windows;
    WindowsStep(slots[i..], stride);
    KnownSlice(b, slots, i, stride);
  }

  lemma WindowsOfNothing(stride: nat)
    requires stride > 0
    ensures Windows([], stride) == []
  {
  }

  lemma StridePositive(n: nat, maxPoints: nat)
    requires maxPoints > 0
    ensures Stride(n, maxPoints) > 0
  {
  }

  lemma NoCurve(b: Buckets, base: int)
    ensures CurveOf(b, [], base, [])
  {
  }

  lemma NoWindows(b: Buckets, maxPoints: nat)
    requires b == map[] && maxPoints > 0
    ensures Curve(b, maxPoints, [])
  {
  }

  /** However many slots there are, the curve has at most `maxPoints` points, the first at time 0 and each
      later than the one before. */
  lemma CurveBounded(b: Buckets, maxPoints: nat, ps: seq<Point>)
    requires maxPoints > 0 && Curve(b, maxPoints, ps)
    ensures |ps| <= maxPoints
    ensures ps == [] <==> b == map[]
    ensures ps != [] ==> ps[0].time == 0
    ensures forall j, k :: 0 <= j < k < |ps| ==> ps[j].time < ps[k].time
  {
    hide PeakOf, Windows, Stride, SortedSlots, Known;
    var slots := SortedSlots(b.Keys);
    var stride := Stride(|slots|, maxPoints);
    StrideCovers(|slots|, maxPoints);
    StridePositive(|slots|, maxPoints);
    WindowCount(slots, stride, maxPoints);
    assert slots == [] <==> b == map[] by {
      if b != map[] {
        var s :| s in b;
        assert s in slots;
      }
    }
    if slots == [] {
      WindowsOfNothing(stride);
    } else {
      WindowsStep(slots, stride);
    }
    forall j, k | 0 <= j < k < |ps|
      ensures ps[j].time < ps[k].time
    {
      WindowsAscend(slots, stride, j, k);
      var ws := Windows(slots, stride);
      assert ws[j][0] in ws[j] && ws[k][0] in ws[k];
    }
  }

  // ---- peaks of peaks ----

  ghost predicate Grouped(all: seq<Totals>, groups: seq<seq<Totals>>) {
    forall x :: x in all <==> exists k :: 0 <= k < |groups| && x in groups[k]
  }

  /** The peak of the peaks of groups is the peak of all of them together. */
  lemma PeakOfGroups(top: Totals, peaks: seq<Totals>, groups: seq<seq<Totals>>, all: seq<Totals>)
    requires |peaks| == |groups| && Grouped(all, groups)
    requires forall k :: 0 <= k < |groups| ==> PeakOf(peaks[k], groups[k])
    ensures PeakOf(top, peaks) <==> PeakOf(top, all)
  {
  }

  function PeaksOf(ps: seq<Point>): (r: seq<Totals>)
    ensures |r| == |ps| && forall k :: 0 <= k < |ps| ==> r[k] == ps[k].peak
  {
    seq(|ps|, k requires 0 <= k < |ps| => ps[k].peak)
  }

  lemma WindowsGroup(b: Buckets, ws: seq<seq<int>>, groups: seq<seq<Totals>>)
    requires Known(b, Flatten(ws))
    requires |groups| == |ws| && forall k :: 0 <= k < |ws| ==> Known(b, ws[k]) && groups[k] == TotalsOf(b, ws[k])
    ensures Grouped(TotalsOf(b, Flatten(ws)), groups)
  {
    hide Flatten, Known;
    var all := TotalsOf(b, Flatten(ws));
    forall x
      ensures x in all <==> exists k :: 0 <= k < |groups| && x in groups[k]
    {
      if x in all {
        var slot := SlotOf(b, Flatten(ws), x);
        var k := FlattenIn(ws, slot);
        InTotals(b, ws[k], slot);
        assert x in groups[k];
      }
      if k :| 0 <= k < |groups| && x in groups[k] {
        var slot := SlotOf(b, ws[k], x);
        InFlatten(ws, k);
        InTotals(b, Flatten(ws), slot);
      }
    }
  }

  lemma SlotOf(b: Buckets, slots: seq<int>, x: Totals) returns (slot: int)
    requires Known(b, slots) && x in TotalsOf(b, slots)
    ensures slot in slots && slot in b && b[slot] == x
  {
    var i :| 0 <= i < |slots| && TotalsOf(b, slots)[i] == x;
    slot := slots[i];
  }

  lemma InTotals(b: Buckets, slots: seq<int>, slot: int)
    requires Known(b, slots) && slot in slots
    ensures slot in b && b[slot] in TotalsOf(b, slots)
  {
  }

  /** No slot's peak is lost and none invented: the greatest totals over the points are those over the buckets. */
  lemma CurveKeepsPeaks(b: Buckets, maxPoints: nat, ps: seq<Point>, top: Totals)
    requires maxPoints > 0 && Curve(b, maxPoints, ps)
    ensures Known(b, SortedSlots(b.Keys))
    ensures PeakOf(top, PeaksOf(ps)) <==> PeakOf(top, TotalsOf(b, SortedSlots(b.Keys)))
  {
    hide PeakOf, Grouped, Known, Windows, Flatten;
    SortedKnown(b);
    var slots := SortedSlots(b.Keys);
    var ws := Windows(slots, Stride(|slots|, maxPoints));
    WindowsPartition(slots, Stride(|slots|, maxPoints));
    var groups := seq(|ws|, k requires 0 <= k < |ws| => TotalsOf(b, ws[k]));
    WindowsGroup(b, ws, groups);
    PeakOfGroups(top, PeaksOf(ps), groups, TotalsOf(b, slots));
  }

  /** What all the counted events say. */
  function AllReadings(es: seq<Event>): seq<Totals> {
    if es == [] then []
    else
      var (e, rest) := (es[|es| - 1], AllReadings(es[..|es| - 1]));
      if Counts(e) then rest + [Totals(e.alloc.value, e.reserved.value)] else rest
  }

  lemma {:induction false} ReadIn(es: seq<Event>, x: Totals) returns (slot: int)
    requires x in AllReadings(es)
    ensures x in Readings(es, slot)
  {
    hide Slot;
    var e, rest := es[|es| - 1], es[..|es| - 1];
    if x in AllReadings(rest) {
      slot := ReadIn(rest, x);
    } else {
      slot := Slot(e.ts);
    }
  }

  lemma {:induction false} InAll(es: seq<Event>, slot: int, x: Totals)
    requires x in Readings(es, slot)
    ensures x in AllReadings(es)
  {
    hide Slot;
    var rest := es[..|es| - 1];
    if x in Readings(rest, slot) {
      InAll(rest, slot, x);
    }
  }

  lemma BucketsGroup(es: seq<Event>, b: Buckets, slots: seq<int>, groups: seq<seq<Totals>>)
    requires Peaks(b, es) && forall s :: s in slots <==> s in b
    requires |groups| == |slots| && forall k :: 0 <= k < |slots| ==> groups[k] == Readings(es, slots[k])
    ensures Grouped(AllReadings(es), groups)
  {
    hide PeakOf, Readings, AllReadings;
    forall x
      ensures x in AllReadings(es) <==> exists k :: 0 <= k < |groups| && x in groups[k]
    {
      if x in AllReadings(es) {
        var slot := ReadIn(es, x);
        assert slot in b;
        var k :| 0 <= k < |slots| && slots[k] == slot;
        assert x in groups[k];
      }
      if k :| 0 <= k < |groups| && x in groups[k] {
        InAll(es, slots[k], x);
      }
    }
  }

  /** From the events to the curve: its greatest totals are the greatest of all the memory events. */
  lemma CurveKeepsEventPeaks(es: seq<Event>, b: Buckets, maxPoints: nat, ps: seq<Point>, top: Totals)
    requires Peaks(b, es)
    requires maxPoints > 0 && Curve(b, maxPoints, ps)
    ensures PeakOf(top, PeaksOf(ps)) <==> PeakOf(top, AllReadings(es))
  {
    hide PeakOf, Readings, AllReadings, Curve, Grouped, Known;
    CurveKeepsPeaks(b, maxPoints, ps, top);
    var slots := SortedSlots(b.Keys);
    var groups := seq(|slots|, k requires 0 <= k < |slots| => Readings(es, slots[k]));
    BucketsGroup(es, b, slots, groups);
    forall k | 0 <= k < |slots|
      ensures PeakOf(TotalsOf(b, slots)[k], groups[k])
    {
      assert slots[k] in slots;
    }
    PeakOfGroups(top, TotalsOf(b, slots), groups, AllReadings(es));
  }

  /** Within the bound nothing is thinned out: the points are the buckets, one by one. */
  lemma ShortCurveExact(b: Buckets, maxPoints: nat, ps: seq<Point>)
    requires maxPoints > 0 && Curve(b, maxPoints, ps)
    requires |b| <= maxPoints
    ensures Known(b, SortedSlots(b.Keys))
    ensures PeaksOf(ps) == TotalsOf(b, SortedSlots(b.Keys))
  {
    hide PeakOf, Windows, Known;
    SortedKnown(b);
    var slots := SortedSlots(b.Keys);
    assert |b.Keys| == |b|;
    SmallStride(|slots|, maxPoints);
    SingleWindows(slots);
    forall k | 0 <= k < |ps|
      ensures ps[k].peak == TotalsOf(b, slots)[k]
    {
      SinglePeak(b, slots[k], ps[k].peak);
    }
  }

  lemma SinglePeak(b: Buckets, slot: int, p: Totals)
    requires Known(b, [slot]) && PeakOf(p, TotalsOf(b, [slot]))
    ensures slot in b && p == b[slot]
  {
  }

  lemma SmallStride(n: nat, maxPoints: nat)
    requires maxPoints > 0 && n <= maxPoints
    ensures Stride(n, maxPoints) == 1
  {
    var m := n + maxPoints - 1;
    assert m == maxPoints * (m / maxPoints) + m % maxPoints;
    LessThanTwo(maxPoints, m / maxPoints, m);
  }

  lemma LessThanTwo(d: nat, q: nat, m: nat)
    requires d * q <= m < 2 * d
    ensures q <= 1
  {
    if q > 1 {
      AtLeastTwice(d, q);
      assert false;
    }
  }

  lemma AtLeastTwice(d: nat, q: nat)
    requires q >= 2
    ensures d * q >= 2 * d
  {
    assert d * q == 2 * d + d * (q - 2);
  }

  lemma {:induction false} SingleWindows(slots: seq<int>)
    ensures |Windows(slots, 1)| == |slots|
    ensures forall k :: 0 <= k < |slots| ==> Windows(slots, 1)[k] == [slots[k]]
  {
    if |slots| > 1 {
      SingleWindows(slots[1..]);
    }
  }

  // ---- slots, strides and times in numbers ----

  /** A slot is five milliseconds. Times before zero, which are cut towards zero, fall into the slot of the whole
      microsecond above. */
  lemma SlotIff(t: real, k: int)
    ensures t >= 0.0 ==> (Slot(t) == k <==> (5_000 * k) as real <= t < (5_000 * (k + 1)) as real)
    ensures t < 0.0 ==> (Slot(t) == k <==> (5_000 * k - 1) as real < t <= (5_000 * k + 4_999) as real)
  {
    var whole := if t >= 0.0 then t.Floor else -((-t).Floor);
    DivIff(whole, k);
  }

  lemma DivIff(n: int, k: int)
    ensures n / 5_000 == k <==> 5_000 * k <= n < 5_000 * (k + 1)
  {
  }

  /** The stride is the least that leaves at most `maxPoints` windows. */
  lemma StrideLeast(n: nat, maxPoints: nat)
    requires maxPoints > 0
    ensures n <= Stride(n, maxPoints) * maxPoints
    ensures Stride(n, maxPoints) > 1 ==> (Stride(n, maxPoints) - 1) * maxPoints < n
    ensures Stride(n, maxPoints) >= 1
  {
    var q := (n + maxPoints - 1) / maxPoints;
    assert n + maxPoints - 1 == q * maxPoints + (n + maxPoints - 1) % maxPoints;
    if q >= 1 {
      assert (q - 1) * maxPoints == q * maxPoints - maxPoints;
    }
  }

  /** A point's time is five milliseconds for each slot since the first. */
  lemma PointTime(b: Buckets, ws: seq<seq<int>>, base: int, ps: seq<Point>, k: nat)
    requires CurveOf(b, ws, base, ps) && k < |ps|
    ensures ws[k] != [] && ps[k].time == 5 * (ws[k][0] - base)
  {
    hide PeakOf, Known, TotalsOf;
  }

  /** Only events with both totals are counted. */
  lemma CountedIff(e: Event, slot: int)
    ensures Readings([e], slot) ==
      if e.alloc.Some? && e.reserved.Some? && Slot(e.ts) == slot then [Totals(e.alloc.value, e.reserved.value)] else []
  {
    hide Slot;
    assert [e][..0] == [];
  }

  // ---- end to end ----

  /** From the events of a file to its curve: at most 600 points, from 0 on, with the greatest totals of the events. */
  method MemoryStat(es: seq<Event>) returns (ps: seq<Point>)
    ensures |ps| <= 600 && (ps != [] ==> ps[0].time == 0)
    ensures forall j, k :: 0 <= j < k < |ps| ==> ps[j].time < ps[k].time && (ps[k].time - ps[j].time) % 5 == 0
    ensures forall top :: PeakOf(top, PeaksOf(ps)) <==> PeakOf(top, AllReadings(es))
  {
    hide PeakOf, PeaksOf, AllReadings, Peaks, Curve;
    var memBuckets := FoldBuckets(es);
    ps := FlushMemoryBuckets(memBuckets);
    CurveBounded(memBuckets, MEMORY_MAX_POINTS, ps);
    forall j, k | 0 <= j < k < |ps|
      ensures (ps[k].time - ps[j].time) % 5 == 0
    {
      FiveApart(memBuckets, MEMORY_MAX_POINTS, ps, j, k);
    }
    forall top
      ensures PeakOf(top, PeaksOf(ps)) <==> PeakOf(top, AllReadings(es))
    {
      CurveKeepsEventPeaks(es, memBuckets, MEMORY_MAX_POINTS, ps, top);
    }
  }

  lemma FiveApart(b: Buckets, maxPoints: nat, ps: seq<Point>, j: nat, k: nat)
    requires maxPoints > 0 && Curve(b, maxPoints, ps) && j < k < |ps|
    ensures (ps[k].time - ps[j].time) % 5 == 0
  {
    hide CurveOf, Windows;
    var slots := SortedSlots(b.Keys);
    StrideLeast(|slots|, maxPoints);
    var ws := Windows(slots, Stride(|slots|, maxPoints));
    var base := if slots == [] then 0 else slots[0];
    CurveLength(b, ws, base, ps);
    PointTime(b, ws, base, ps, j);
    PointTime(b, ws, base, ps, k);
    Fives(ws[j][0] - base, ws[k][0] - base);
  }

  lemma CurveLength(b: Buckets, ws: seq<seq<int>>, base: int, ps: seq<Point>)
    requires CurveOf(b, ws, base, ps)
    ensures |ws| == |ps|
  {
  }

  lemma Fives(m: int, n: int)
    ensures (5 * n - 5 * m) % 5 == 0
  {
    assert 5 * n - 5 * m == 5 * (n - m);
  }
}
