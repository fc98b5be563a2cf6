// GPU idle analysis over an in-memory trace (local-profiling-agent/src/eventStore.js and
// local-profiling-agent/src/tools/analyzeGpuIdle.js). Times are whole microseconds.
module GpuIdle {
  import opened Wrappers

  /** A stored event; a time or duration that is not a finite number is missing. */
  datatype Event = Event(cat: string, ts: Option<int>, dur: Option<int>)

  /** An event as read, with its category cut at the first comma. */
  datatype RawEvent = RawEvent(ph: string, cat: string, ts: Option<int>, dur: Option<int>)

  datatype Span = Span(ts: int, end: int)

  datatype Note = Inner | Leading | Trailing

  datatype Gap = Gap(ts: int, dur: int, note: Note)

  // ---- kernel categories ----

  /** `toLowerCase`, as far as it yields a letter of ASCII: that of the Kelvin sign is a `k`. */
  function Lower(c: char): char {
    if 'A' <= c <= 'Z' then ((c as int) + 32) as char else if c == '\U{212A}' then 'k' else c
  }

  function LowerCase(s: string): string {
    if s == "" then "" else [Lower(s[0])] + LowerCase(s[1..])
  }

  predicate Contains(s: string, part: string) {
    |part| <= |s| && (s[..|part|] == part || (s != "" && Contains(s[1..], part)))
  }

  predicate IsKernelCat(c: string) {
    var s := LowerCase(c);
    || s == "kernel" || s == "cuda" || s == "gpu" || Contains(s, "kernel")
    || Contains(s, "gpuop") || Contains(s, "gpu_op") || Contains(s, "gpu op")
  }

  /** The text is this word, whatever the case of its letters. */
  predicate Spells(s: string, word: string) {
    && |s| == |word|
    && forall i :: 0 <= i < |s| ==>
      || s[i] == word[i]
      || ('A' <= s[i] <= 'Z' && s[i] as int + 32 == word[i] as int)
      || (s[i] == '\U{212A}' && word[i] == 'k')
  }

  predicate SpelledAt(s: string, word: string, i: nat) {
    i + |word| <= |s| && Spells(s[i..i + |word|], word)
  }

  ghost predicate HasWord(s: string, word: string) {
    exists i: nat :: SpelledAt(s, word, i)
  }

  /** The categories of kernels, in any case: the words themselves, and all that have `kernel` or a GPU operation in
      them. */
  lemma KernelCatIff(c: string)
    ensures IsKernelCat(c) <==>
      || Spells(c, "kernel") || Spells(c, "cuda") || Spells(c, "gpu") || HasWord(c, "kernel")
      || HasWord(c, "gpuop") || HasWord(c, "gpu_op") || HasWord(c, "gpu op")
  {
    hide Spells, HasWord, LowerCase, Contains;
    LowerSpells(c, "kernel");
    LowerSpells(c, "cuda");
    LowerSpells(c, "gpu");
    LowerContains(c, "kernel");
    LowerContains(c, "gpuop");
    LowerContains(c, "gpu_op");
    LowerContains(c, "gpu op");
  }

  // No letter of the word is a capital.
  predicate LowerWord(word: string) {
    forall i :: 0 <= i < |word| ==> !('A' <= word[i] <= 'Z') && word[i] != '\U{212A}'
  }

  lemma {:induction false} LowerAt(s: string)
    ensures |LowerCase(s)| == |s| && forall i :: 0 <= i < |s| ==> LowerCase(s)[i] == Lower(s[i])
  {
    if s != "" {
      LowerAt(s[1..]);
    }
  }

  lemma LowerSpells(s: string, word: string)
    requires LowerWord(word)
    ensures LowerCase(s) == word <==> Spells(s, word)
  {
    hide LowerCase;
    LowerAt(s);
  }

  lemma LowerSlice(s: string, i: nat, j: nat)
    requires i <= j <= |s|
    ensures |LowerCase(s)| == |s| && LowerCase(s)[i..j] == LowerCase(s[i..j])
  {
    hide LowerCase, Lower;
    LowerAt(s);
    LowerAt(s[i..j]);
  }

  predicate OccursAt(s: string, part: string, i: nat) {
    i + |part| <= |s| && s[i..i + |part|] == part
  }

  ghost predicate Somewhere(s: string, part: string) {
    exists i: nat :: OccursAt(s, part, i)
  }

  lemma {:induction false} ContainsIff(s: string, part: string)
    ensures Contains(s, part) <==> Somewhere(s, part)
  {
    hide OccursAt;
    FrontIff(s, part);
    if |part| > |s| {
      forall i: nat
        ensures !OccursAt(s, part, i)
      {
        TooLong(s, part, i);
      }
    } else if s[..|part|] != part && s != "" {
      ContainsIff(s[1..], part);
      forall i: nat
        ensures OccursAt(s[1..], part, i) <==> OccursAt(s, part, i + 1)
      {
        OneFurther(s, part, i);
      }
      if i: nat :| OccursAt(s, part, i) {
        assert OccursAt(s[1..], part, i - 1);
      }
    } else if s == "" {
      forall i: nat | i > 0
        ensures !OccursAt(s, part, i)
      {
        TooLong(s, part, i);
      }
    }
  }

  lemma FrontIff(s: string, part: string)
    ensures OccursAt(s, part, 0) <==> |part| <= |s| && s[..|part|] == part
  {
  }

  lemma TooLong(s: string, part: string, i: nat)
    requires i + |part| > |s|
    ensures !OccursAt(s, part, i)
  {
  }

  lemma OneFurther(s: string, part: string, i: nat)
    requires s != ""
    ensures OccursAt(s[1..], part, i) <==> OccursAt(s, part, i + 1)
  {
    if i + 1 + |part| <= |s| {
      assert s[1..][i..i + |part|] == s[i + 1..i + 1 + |part|];
    }
  }

  lemma LowerContains(s: string, word: string)
    requires LowerWord(word)
    ensures Contains(LowerCase(s), word) <==> HasWord(s, word)
  {
    hide OccursAt, SpelledAt, LowerCase, Contains;
    ContainsIff(LowerCase(s), word);
    forall i: nat
      ensures OccursAt(LowerCase(s), word, i) <==> SpelledAt(s, word, i)
    {
      OccursSpelled(s, word, i);
    }
  }

  lemma OccursSpelled(s: string, word: string, i: nat)
    requires LowerWord(word)
    ensures OccursAt(LowerCase(s), word, i) <==> SpelledAt(s, word, i)
  {
    hide Spells, LowerCase;
    LowerSlice(s, 0, 0);
    if i + |word| <= |s| {
      LowerSlice(s, i, i + |word|);
      LowerSpells(s[i..i + |word|], word);
    }
  }

  predicate Finite(e: Event) { e.ts.Some? && e.dur.Some? }

  predicate IsWork(e: Event) { Finite(e) && IsKernelCat(e.cat) && e.dur.value > 0 }

  function SpanOf(e: Event): Span
    requires Finite(e)
  {
    Span(e.ts.value, e.ts.value + e.dur.value)
  }

  /** `normalizeEvent`: metadata and flow events and those without a finite time are skipped, a missing
      duration is 0. */
  function NormalizeEvent(raw: RawEvent): (e: Option<Event>)
    ensures e.Some? ==> Finite(e.value) && e.value.cat == raw.cat && e.value.ts == raw.ts
    ensures e.Some? <==> raw.ph !in {"M", "s", "f", "t"} && raw.ts.Some?
  {
    if raw.ph in {"M", "s", "f", "t"} || raw.ts.None? then None
    else Some(Event(raw.cat, raw.ts, Some(if raw.dur.None? then 0 else raw.dur.value)))
  }

  // ---- covered points ----

  /** Some kernel runs in the microsecond that starts at `t`. */
  predicate Busy(es: seq<Event>, t: int) {
    exists i :: 0 <= i < |es| && IsWork(es[i]) && Within(SpanOf(es[i]), t)
  }

  /** A kernel runs from its start on, up to its end. */
  predicate KernelAt(e: Event, t: int) {
    Finite(e) && IsKernelCat(e.cat) && e.ts.value <= t < e.ts.value + e.dur.value
  }

  /** The work is the kernels that run at all, and the device is busy while one does. */
  lemma BusyIff(es: seq<Event>, t: int)
    ensures Busy(es, t) <==> exists i :: 0 <= i < |es| && KernelAt(es[i], t)
    ensures forall i :: 0 <= i < |es| ==> (IsWork(es[i]) <==> exists u :: KernelAt(es[i], u))
  {
    hide IsKernelCat;
    if i :| 0 <= i < |es| && KernelAt(es[i], t) {
      assert IsWork(es[i]) && Within(SpanOf(es[i]), t);
    }
    forall i | 0 <= i < |es|
      ensures IsWork(es[i]) <==> exists u :: KernelAt(es[i], u)
    {
      if IsWork(es[i]) {
        assert KernelAt(es[i], es[i].ts.value);
      }
    }
  }

  predicate Within(s: Span, t: int) { s.ts <= t < s.end }

  predicate Covered(spans: seq<Span>, t: int) {
    exists i :: 0 <= i < |spans| && Within(spans[i], t)
  }

  predicate NonEmpty(spans: seq<Span>) {
    forall i :: 0 <= i < |spans| ==> spans[i].ts < spans[i].end
  }

  predicate SpansByStart(spans: seq<Span>) {
    forall i, j :: 0 <= i < j < |spans| ==> spans[i].ts <= spans[j].ts
  }

  /** Non-empty spans in order with at least a point between any two of them. */
  predicate Separated(spans: seq<Span>) {
    && NonEmpty(spans)
    && forall i, j :: 0 <= i < j < |spans| ==> spans[i].end < spans[j].ts
  }

  /** The separated spans over a set of points are determined by it, so neither the order of the kernels nor
      how they overlap shows in the busy spans. */
  lemma {:induction false} SeparatedUnique(a: seq<Span>, b: seq<Span>)
    requires Separated(a) && Separated(b)
    requires forall t :: Covered(a, t) <==> Covered(b, t)
    ensures a == b
  {
    hide Covered, Separated;
    if a == [] {
      if b != [] {
        StartCovered(b);
        NoneCovered();
        assert false;
      }
    } else {
      StartCovered(a);
      if b == [] {
        NoneCovered();
        assert false;
      }
      FirstSpan(a, b);
      FirstSpan(b, a);
      RestCovered(a);
      RestCovered(b);
      SeparatedUnique(a[1..], b[1..]);
      assert a == [a[0]] + a[1..] && b == [b[0]] + b[1..];
    }
  }

  lemma StartCovered(a: seq<Span>)
    requires Separated(a) && a != []
    ensures Covered(a, a[0].ts) && !Covered(a, a[0].end)
  {
  }

  lemma FirstSpan(a: seq<Span>, b: seq<Span>)
    requires Separated(a) && Separated(b) && a != [] && b != []
    requires forall t :: Covered(a, t) <==> Covered(b, t)
    ensures b[0].ts <= a[0].ts && (a[0].ts == b[0].ts ==> b[0].end >= a[0].end)
  {
    StartCovered(a);
    StartCovered(b);
    InFirst(a, b[0].end);
  }

  lemma InFirst(a: seq<Span>, t: int)
    requires a != []
    ensures Within(a[0], t) ==> Covered(a, t)
  {
  }

  lemma RestCovered(a: seq<Span>)
    requires Separated(a) && a != []
    ensures Separated(a[1..])
    ensures forall t :: Covered(a[1..], t) <==> Covered(a, t) && !Within(a[0], t)
  {
  }

  // ---- measure ----

  function Lengths(spans: seq<Span>): int {
    if spans == [] then 0 else Lengths(spans[..|spans| - 1]) + spans[|spans| - 1].end - spans[|spans| - 1].ts
  }

  function Durations(gaps: seq<Gap>): int {
    if gaps == [] then 0 else Durations(gaps[..|gaps| - 1]) + gaps[|gaps| - 1].dur
  }

  function Range(lo: int, hi: int): (r: set<int>)
    ensures (forall t :: t in r <==> lo <= t < hi) && |r| == if lo <= hi then hi - lo else 0
    decreases hi - lo
  {
    if lo >= hi then {} else Range(lo, hi - 1) + {hi - 1}
  }

  function BusyPoints(es: seq<Event>, lo: int, hi: int): set<int> {
    set t | lo <= t < hi && Busy(es, t)
  }

  function IdlePoints(es: seq<Event>, lo: int, hi: int): set<int> {
    set t | lo <= t < hi && !Busy(es, t)
  }

  lemma CoveredLast(spans: seq<Span>, t: int)
    requires Separated(spans) && spans != []
    ensures var n := |spans| - 1; Covered(spans[..n], t) <==> Covered(spans, t) && !Within(spans[n], t)
  {
  }

  /** Separated spans are as long as the number of points they cover. */
  lemma {:induction false} LengthsCount(spans: seq<Span>, points: set<int>)
    requires Separated(spans)
    requires forall t :: t in points <==> Covered(spans, t)
    ensures Lengths(spans) == |points|
  {
    hide Covered;
    if spans == [] {
      NoneCovered();
      assert forall t :: t in points <==> t in {};
    } else {
      var n := |spans| - 1;
      var last := Range(spans[n].ts, spans[n].end);
      forall t
        ensures t in points - last <==> Covered(spans[..n], t)
        ensures t in last ==> t in points
      {
        CoveredLast(spans, t);
        if t in last {
          LastCovered(spans, t);
        }
      }
      LengthsCount(spans[..n], points - last);
      assert points == (points - last) + last;
    }
  }

  lemma NoneCovered()
    ensures forall t :: !Covered([], t)
  {
  }

  lemma LastCovered(spans: seq<Span>, t: int)
    requires spans != [] && Within(spans[|spans| - 1], t)
    ensures Covered(spans, t)
  {
  }

  // ---- sorting ----

  /** `sort` by start, stable. */
  function InsertSpan(spans: seq<Span>, s: Span): (r: seq<Span>)
    requires SpansByStart(spans)
    ensures SpansByStart(r) && forall x :: x in r <==> x in spans || x == s
  {
    if spans == [] || spans[|spans| - 1].ts <= s.ts then
      assert forall x :: x in spans + [s] <==> x in spans || x == s;
      spans + [s]
    else
      var n := |spans| - 1;
      var r := InsertSpan(spans[..n], s) + [spans[n]];
      assert spans == spans[..n] + [spans[n]];
      assert forall i :: 0 <= i < n ==> spans[i] in spans[..n] && spans[i].ts <= spans[n].ts;
      assert forall x :: x in InsertSpan(spans[..n], s) ==> x.ts <= spans[n].ts;
      r
  }

  function SortSpans(spans: seq<Span>): (r: seq<Span>)
    ensures SpansByStart(r) && forall x :: x in r <==> x in spans
  {
    if spans == [] then []
    else
      var n := |spans| - 1;
      assert spans == spans[..n] + [spans[n]];
      InsertSpan(SortSpans(spans[..n]), spans[n])
  }

  predicate LongestFirst(gaps: seq<Gap>) {
    forall i, j :: 0 <= i < j < |gaps| ==> gaps[i].dur >= gaps[j].dur
  }

  /** `sort` by falling duration, stable. */
  function InsertGap(gaps: seq<Gap>, g: Gap): (r: seq<Gap>)
    ensures multiset(r) == multiset(gaps) + multiset{g}
  {
    var n := |gaps| - 1;
    if gaps == [] || gaps[n].dur >= g.dur then gaps + [g]
    else
      assert gaps == gaps[..n] + [gaps[n]];
      InsertGap(gaps[..n], g) + [gaps[n]]
  }

  function SortGaps(gaps: seq<Gap>): (r: seq<Gap>)
    ensures multiset(r) == multiset(gaps)
  {
    if gaps == [] then []
    else
      var n := |gaps| - 1;
      assert gaps == gaps[..n] + [gaps[n]];
      InsertGap(SortGaps(gaps[..n]), gaps[n])
  }

  lemma {:induction false} InsertLongestFirst(gaps: seq<Gap>, g: Gap)
    requires LongestFirst(gaps)
    ensures LongestFirst(InsertGap(gaps, g))
    ensures Durations(InsertGap(gaps, g)) == Durations(gaps) + g.dur
  {
    var n := |gaps| - 1;
    if gaps == [] || gaps[n].dur >= g.dur {
      DurationsMore(gaps, g);
    } else {
      var front := InsertGap(gaps[..n], g);
      InsertLongestFirst(gaps[..n], g);
      DurationsMore(front, gaps[n]);
      ShortestLast(front, gaps[..n], g, gaps[n]);
      ThenLongestFirst(front, gaps[n]);
    }
  }

  lemma ThenLongestFirst(front: seq<Gap>, last: Gap)
    requires LongestFirst(front)
    requires forall i :: 0 <= i < |front| ==> front[i].dur >= last.dur
    ensures LongestFirst(front + [last])
  {
  }

  lemma DurationsMore(gaps: seq<Gap>, g: Gap)
    ensures Durations(gaps + [g]) == Durations(gaps) + g.dur
  {
    assert (gaps + [g])[..|gaps|] == gaps;
  }

  lemma ShortestLast(front: seq<Gap>, rest: seq<Gap>, g: Gap, last: Gap)
    requires multiset(front) == multiset(rest) + multiset{g} && g.dur >= last.dur
    requires forall i :: 0 <= i < |rest| ==> rest[i].dur >= last.dur
    ensures forall i :: 0 <= i < |front| ==> front[i].dur >= last.dur
  {
    forall i | 0 <= i < |front|
      ensures front[i].dur >= last.dur
    {
      assert front[i] in multiset(front);
      assert front[i] == g || front[i] in rest;
    }
  }

  lemma {:induction false} SortLongestFirst(gaps: seq<Gap>)
    ensures LongestFirst(SortGaps(gaps)) && Durations(SortGaps(gaps)) == Durations(gaps)
  {
    hide InsertGap;
    if gaps != [] {
      var n := |gaps| - 1;
      SortLongestFirst(gaps[..n]);
      InsertLongestFirst(SortGaps(gaps[..n]), gaps[n]);
    }
  }

  // ---- the store ----

  class TraceStore {
    var events: seq<Event>
    // None stands for the infinities the bounds start from.
    var tsMin: Option<int>
    var tsMax: Option<int>

    /** The bounds are the least start and the greatest end of the events with a finite time. */
    ghost predicate Valid()
      reads this
    {
      && (forall i :: 0 <= i < |events| && events[i].ts.Some? ==>
           && tsMin.Some? && tsMin.value <= events[i].ts.value
           && tsMax.Some? && EndOf(events[i]) <= tsMax.value)
      && (tsMin.Some? ==> exists i :: 0 <= i < |events| && events[i].ts == tsMin)
      && (tsMax.Some? ==> exists i :: 0 <= i < |events| && events[i].ts.Some? && EndOf(events[i]) == tsMax.value)
    }

    /** As the reader fills it. */
    ghost predicate AllFinite()
      reads this
    {
      forall i :: 0 <= i < |events| ==> Finite(events[i])
    }

    constructor ()
      ensures Valid() && events == []
    {
      events, tsMin, tsMax := [], None, None;
    }

    method Push(e: Event)
      requires Valid()
      modifies this
      ensures Valid() && events == old(events) + [e]
      ensures e.ts.None? ==> tsMin == old(tsMin) && tsMax == old(tsMax)
    {
      ghost var n := |events|;
      events := events + [e];
      assert events[n] == e && forall i :: 0 <= i < n ==> events[i] == old(events)[i];
      if e.ts.Some? {
        if tsMin.None? || e.ts.value < tsMin.value {
          tsMin := e.ts;
        }
        var end := e.ts.value + (if e.dur.None? then 0 else e.dur.value);
        if tsMax.None? || end > tsMax.value {
          tsMax := Some(end);
        }
      }
    }
  }

  function EndOf(e: Event): int
    requires e.ts.Some?
  {
    e.ts.value + (if e.dur.None? then 0 else e.dur.value)
  }

  function Normalized(raws: seq<RawEvent>): seq<Event> {
    if raws == [] then []
    else
      var front := Normalized(raws[..|raws| - 1]);
      var e := NormalizeEvent(raws[|raws| - 1]);
      if e.Some? then front + [e.value] else front
  }

  /** The reader: every event that survives normalisation, in order. */
  method Ingest(raws: seq<RawEvent>) returns (store: TraceStore)
    ensures fresh(store) && store.Valid() && store.AllFinite() && store.events == Normalized(raws)
  {
    store := new TraceStore();
    for i := 0 to |raws|
      invariant fresh(store) && store.Valid() && store.AllFinite() && store.events == Normalized(raws[..i])
    {
      assert raws[..i + 1][..i] == raws[..i];
      var e := NormalizeEvent(raws[i]);
      if e.Some? {
        store.Push(e.value);
      }
    }
    assert raws[..|raws|] == raws;
  }

  // ---- the analysis ----

  datatype Report = Report(busy: seq<Span>, totalSpan: int, busyTime: int, idleTime: int, gaps: seq<Gap>)

  predicate InGap(gaps: seq<Gap>, t: int) {
    exists i :: 0 <= i < |gaps| && gaps[i].ts <= t < gaps[i].ts + gaps[i].dur
  }

  predicate Positive(gaps: seq<Gap>) {
    forall i :: 0 <= i < |gaps| ==> gaps[i].dur > 0
  }

  method CollectKernels(es: seq<Event>) returns (intervals: seq<Span>)
    requires forall i :: 0 <= i < |es| ==> Finite(es[i])
    ensures NonEmpty(intervals)
    ensures intervals == [] <==> forall i :: 0 <= i < |es| ==> !IsWork(es[i])
    ensures forall t :: Covered(intervals, t) <==> Busy(es, t)
  {
    hide NonEmpty, Covered, Busy, IsKernelCat;
    intervals := [];
    NothingBusy();
    for n := 0 to |es|
      invariant NonEmpty(intervals)
      invariant intervals == [] <==> forall i :: 0 <= i < n ==> !IsWork(es[i])
      invariant forall t :: Covered(intervals, t) <==> Busy(es[..n], t)
    {
      var e := es[n];
      assert es[..n + 1] == es[..n] + [e];
      BusyMore(es[..n], e, intervals);
      if IsKernelCat(e.cat) && e.dur.value > 0 {
        intervals := intervals + [Span(e.ts.value, e.ts.value + e.dur.value)];
      }
    }
    assert es[..|es|] == es;
  }

  lemma NothingBusy()
    ensures NonEmpty([]) && forall t :: Covered([], t) <==> Busy([], t)
  {
  }

  lemma BusyMore(es: seq<Event>, e: Event, spans: seq<Span>)
    requires Finite(e) && NonEmpty(spans) && forall t :: Covered(spans, t) <==> Busy(es, t)
    ensures IsWork(e) ==>
        NonEmpty(spans + [SpanOf(e)]) && forall t :: Covered(spans + [SpanOf(e)], t) <==> Busy(es + [e], t)
    ensures !IsWork(e) ==> forall t :: Covered(spans, t) <==> Busy(es + [e], t)
  {
    hide Covered, Busy;
    forall t
      ensures IsWork(e) ==> (Covered(spans + [SpanOf(e)], t) <==> Busy(es + [e], t))
      ensures !IsWork(e) ==> (Covered(spans, t) <==> Busy(es + [e], t))
    {
      BusyOne(es, e, t);
      CoveredMore(spans, SpanOf(e), t);
    }
  }

  lemma BusyOne(es: seq<Event>, e: Event, t: int)
    requires Finite(e)
    ensures Busy(es + [e], t) <==> Busy(es, t) || (IsWork(e) && Within(SpanOf(e), t))
  {
    hide IsKernelCat;
    var all := es + [e];
    assert all[|es|] == e;
    if i :| 0 <= i < |es| && IsWork(es[i]) && Within(SpanOf(es[i]), t) {
      assert all[i] == es[i];
    }
  }

  lemma CoveredMore(spans: seq<Span>, s: Span, t: int)
    ensures Covered(spans + [s], t) <==> Covered(spans, t) || Within(s, t)
  {
    if i :| 0 <= i < |spans| && Within(spans[i], t) {
      assert Within((spans + [s])[i], t);
    }
    if Within(s, t) {
      assert Within((spans + [s])[|spans|], t);
    }
  }

  lemma CoveredBy(a: seq<Span>, b: seq<Span>)
    requires forall x :: x in a <==> x in b
    ensures forall t :: Covered(a, t) <==> Covered(b, t)
  {
    forall t
      ensures Covered(a, t) <==> Covered(b, t)
    {
      if i :| 0 <= i < |a| && Within(a[i], t) {
        assert a[i] in a;
        var j :| 0 <= j < |b| && b[j] == a[i];
        assert Within(b[j], t);
      }
      if j :| 0 <= j < |b| && Within(b[j], t) {
        assert b[j] in b;
        var i :| 0 <= i < |a| && a[i] == b[j];
        assert Within(a[i], t);
      }
    }
  }

  /** Merging: overlapping and touching kernels become one span, and no point is gained or lost. */
  method MergeSpans(intervals: seq<Span>) returns (busy: seq<Span>)
    requires intervals != [] && NonEmpty(intervals) && SpansByStart(intervals)
    ensures busy != [] && Separated(busy)
    ensures forall t :: Covered(busy, t) <==> Covered(intervals, t)
  {
    hide Covered;
    busy := [intervals[0]];
    assert intervals[..1] == busy;
    for i := 1 to |intervals|
      invariant busy != [] && Separated(busy) && busy[|busy| - 1].ts <= intervals[i - 1].ts
      invariant forall t :: Covered(busy, t) <==> Covered(intervals[..i], t)
    {
      ghost var before := busy;
      var last := busy[|busy| - 1];
      if intervals[i].ts <= last.end {
        busy := busy[|busy| - 1 := last.(end := if last.end < intervals[i].end then intervals[i].end else last.end)];
        assert busy == before[..|before| - 1] + [busy[|busy| - 1]];
      } else {
        busy := busy + [intervals[i]];
      }
      assert intervals[..i + 1] == intervals[..i] + [intervals[i]];
      assert before == before[..|before| - 1] + [last];
      forall t
        ensures Covered(busy, t) <==> Covered(intervals[..i + 1], t)
      {
        CoveredMore(intervals[..i], intervals[i], t);
        CoveredMore(before, intervals[i], t);
        CoveredMore(before[..|before| - 1], last, t);
        CoveredMore(before[..|before| - 1], busy[|before| - 1], t);
      }
    }
    assert intervals[..|intervals|] == intervals;
  }

  lemma InGapBy(a: seq<Gap>, b: seq<Gap>)
    requires multiset(a) == multiset(b)
    ensures forall t :: InGap(a, t) <==> InGap(b, t)
    ensures Positive(a) <==> Positive(b)
  {
    forall i | 0 <= i < |a|
      ensures exists j :: 0 <= j < |b| && b[j] == a[i]
    {
      assert a[i] in multiset(b);
    }
    forall j | 0 <= j < |b|
      ensures exists i :: 0 <= i < |a| && a[i] == b[j]
    {
      assert b[j] in multiset(a);
    }
  }

  lemma BorderedBy(a: seq<Gap>, b: seq<Gap>, busy: seq<Span>, lo: int, hi: int)
    requires multiset(a) == multiset(b) && busy != [] && AllBordered(b, busy, lo, hi)
    ensures AllBordered(a, busy, lo, hi)
  {
    hide Bordered;
    forall i | 0 <= i < |a|
      ensures Bordered(a[i], busy, lo, hi)
    {
      assert a[i] in multiset(b);
    }
  }

  /** The gaps are the points that the spans leave out from `lo` to `hi`, each in one gap. */
  ghost predicate LeftOut(gaps: seq<Gap>, busy: seq<Span>, lo: int, hi: int) {
    && Positive(gaps)
    && Durations(gaps) + Lengths(busy) == hi - lo
    && forall t :: InGap(gaps, t) <==> lo <= t < hi && !Covered(busy, t)
  }

  ghost predicate Between(g: Gap, busy: seq<Span>) {
    exists i, j :: 0 <= i < j < |busy| && i + 1 == j && g.ts == busy[i].end && g.ts + g.dur == busy[j].ts
  }

  /** A gap reaches from one span to the next, or from and to the bounds of the trace; its note says which. */
  ghost predicate Bordered(g: Gap, busy: seq<Span>, lo: int, hi: int)
    requires busy != []
  {
    match g.note
    case Inner => Between(g, busy)
    case Leading => g.ts == lo && g.ts + g.dur == busy[0].ts
    case Trailing => g.ts == busy[|busy| - 1].end && g.ts + g.dur == hi
  }

  ghost predicate AllBordered(gaps: seq<Gap>, busy: seq<Span>, lo: int, hi: int)
    requires busy != []
  {
    forall i :: 0 <= i < |gaps| ==> Bordered(gaps[i], busy, lo, hi)
  }

  /** The gaps between the spans, from the first to the last. */
  method InnerGaps(busy: seq<Span>) returns (gaps: seq<Gap>)
    requires Separated(busy) && busy != []
    ensures LeftOut(gaps, busy, busy[0].ts, busy[|busy| - 1].end)
    ensures forall i :: 0 <= i < |gaps| ==> gaps[i].note == Inner && Between(gaps[i], busy)
  {
    hide LeftOut;
    gaps := [];
    OneSpan(busy);
    for i := 1 to |busy|
      invariant LeftOut(gaps, busy[..i], busy[0].ts, busy[i - 1].end)
      invariant forall k :: 0 <= k < |gaps| ==> gaps[k].note == Inner && Between(gaps[k], busy)
    {
      var gapDur := busy[i].ts - busy[i - 1].end;
      NextSpan(gaps, busy, i);
      if gapDur > 0 {
        gaps := gaps + [Gap(busy[i - 1].end, gapDur, Inner)];
      }
    }
    assert busy[..|busy|] == busy;
  }

  lemma OneSpan(busy: seq<Span>)
    requires Separated(busy) && busy != []
    ensures LeftOut([], busy[..1], busy[0].ts, busy[0].end)
  {
  }

  lemma NextSpan(gaps: seq<Gap>, busy: seq<Span>, i: nat)
    requires Separated(busy) && 0 < i < |busy| && LeftOut(gaps, busy[..i], busy[0].ts, busy[i - 1].end)
    ensures LeftOut(gaps + [Gap(busy[i - 1].end, busy[i].ts - busy[i - 1].end, Inner)], busy[..i + 1], busy[0].ts,
        busy[i].end)
  {
    hide LeftOut, Covered;
    OnlyBetween(busy[..i]);
    GapAndSpan(gaps, busy[..i], busy[0].ts, busy[i - 1].end, busy[i]);
    assert busy[..i + 1] == busy[..i] + [busy[i]];
  }

  // A gap from `mid` on and the span that ends it.
  lemma GapAndSpan(gaps: seq<Gap>, spans: seq<Span>, lo: int, mid: int, s: Span)
    requires LeftOut(gaps, spans, lo, mid) && lo < mid < s.ts < s.end
    requires forall t :: Covered(spans, t) ==> lo <= t < mid
    ensures LeftOut(gaps + [Gap(mid, s.ts - mid, Inner)], spans + [s], lo, s.end)
  {
    hide InGap, Covered, Positive;
    var g := Gap(mid, s.ts - mid, Inner);
    AddGap(gaps, g);
    assert (spans + [s])[..|spans|] == spans;
    forall t
      ensures InGap(gaps + [g], t) <==> lo <= t < s.end && !Covered(spans + [s], t)
    {
      CoveredMore(spans, s, t);
    }
  }

  lemma OnlyBetween(busy: seq<Span>)
    requires busy != [] && Separated(busy)
    ensures busy[0].ts < busy[|busy| - 1].end
    ensures forall t :: Covered(busy, t) ==> busy[0].ts <= t < busy[|busy| - 1].end
  {
  }

  /** All gaps: between the spans, before the first and after the last. */
  method CollectGaps(busy: seq<Span>, tsMin: int, tsMax: int) returns (gaps: seq<Gap>)
    requires busy != [] && Separated(busy) && tsMin <= busy[0].ts && busy[|busy| - 1].end <= tsMax
    ensures LeftOut(gaps, busy, tsMin, tsMax)
    ensures AllBordered(gaps, busy, tsMin, tsMax)
  {
    hide LeftOut, Separated;
    gaps := InnerGaps(busy);
    assert AllBordered(gaps, busy, tsMin, tsMax);
    WiderBefore(gaps, busy, tsMin, busy[|busy| - 1].end);
    if busy[0].ts > tsMin {
      gaps := gaps + [Gap(tsMin, busy[0].ts - tsMin, Leading)];
    }
    WiderAfter(gaps, busy, tsMin, tsMax);
    if busy[|busy| - 1].end < tsMax {
      gaps := gaps + [Gap(busy[|busy| - 1].end, tsMax - busy[|busy| - 1].end, Trailing)];
    }
  }

  lemma WiderBefore(gaps: seq<Gap>, busy: seq<Span>, lo: int, hi: int)
    requires busy != [] && Separated(busy) && lo <= busy[0].ts && busy[|busy| - 1].end <= hi
    requires LeftOut(gaps, busy, busy[0].ts, hi)
    ensures lo < busy[0].ts ==> LeftOut(gaps + [Gap(lo, busy[0].ts - lo, Leading)], busy, lo, hi)
  {
    hide InGap, Covered, Positive, Separated;
    AddGap(gaps, Gap(lo, busy[0].ts - lo, Leading));
    OnlyBetween(busy);
  }

  lemma WiderAfter(gaps: seq<Gap>, busy: seq<Span>, lo: int, hi: int)
    requires busy != [] && Separated(busy) && lo <= busy[0].ts && busy[|busy| - 1].end <= hi
    requires LeftOut(gaps, busy, lo, busy[|busy| - 1].end)
    ensures busy[|busy| - 1].end < hi ==>
      LeftOut(gaps + [Gap(busy[|busy| - 1].end, hi - busy[|busy| - 1].end, Trailing)], busy, lo, hi)
  {
    hide InGap, Covered, Positive, Separated;
    AddGap(gaps, Gap(busy[|busy| - 1].end, hi - busy[|busy| - 1].end, Trailing));
    OnlyBetween(busy);
  }

  lemma AddGap(gaps: seq<Gap>, g: Gap)
    ensures Durations(gaps + [g]) == Durations(gaps) + g.dur
    ensures Positive(gaps) && g.dur > 0 ==> Positive(gaps + [g])
    ensures forall t :: InGap(gaps + [g], t) <==> InGap(gaps, t) || g.ts <= t < g.ts + g.dur
  {
  }

  /** What the report says of a trace that has kernels: the busy spans cover the busy points and no other, the
      busy and idle times count the busy and idle points between the bounds, and the gaps are the idle points, each as
      long as it can be. */
  ghost predicate Describes(r: Report, es: seq<Event>, lo: int, hi: int) {
    && Separated(r.busy) && (forall t :: Covered(r.busy, t) <==> Busy(es, t))
    && r.totalSpan == hi - lo
    && r.busyTime == |BusyPoints(es, lo, hi)|
    && r.idleTime == |IdlePoints(es, lo, hi)|
    && r.idleTime == Durations(r.gaps)
    && Positive(r.gaps) && LongestFirst(r.gaps)
    && r.busy != [] && AllBordered(r.gaps, r.busy, lo, hi)
    && forall t :: InGap(r.gaps, t) <==> lo <= t < hi && !Busy(es, t)
  }

  method AnalyzeGpuIdle(store: TraceStore) returns (report: Option<Report>)
    requires store.Valid() && store.AllFinite()
    ensures report.None? <==> forall i :: 0 <= i < |store.events| ==> !IsWork(store.events[i])
    ensures report.Some? ==> Describes(report.value, store.events, store.tsMin.value, store.tsMax.value)
    ensures report.Some? ==>
        report.value.busyTime + Durations(report.value.gaps) == store.tsMax.value - store.tsMin.value
  {
    hide Covered, Busy, BusyPoints, IdlePoints, Separated, Positive, LongestFirst, InGap, IsWork, SortGaps;
    var intervals := CollectKernels(store.events);
    if |intervals| == 0 {
      return None;
    }
    var tsMin, tsMax := store.tsMin.value, store.tsMax.value;
    var sorted := SortSpans(intervals);
    SortedKernels(intervals, sorted);
    var busy := MergeSpans(sorted);
    BusyBounded(store.events, tsMin, tsMax, busy);
    var totalSpan := tsMax - tsMin;
    var busyTime := TotalLength(busy);
    var gaps := CollectGaps(busy, tsMin, tsMax);
    Counted(store.events, tsMin, tsMax, busy);
    SortLongestFirst(gaps);
    InGapBy(SortGaps(gaps), gaps);
    BorderedBy(SortGaps(gaps), gaps, busy, tsMin, tsMax);
    report := Some(Report(busy, totalSpan, busyTime, totalSpan - busyTime, SortGaps(gaps)));
  }

  method TotalLength(spans: seq<Span>) returns (n: int)
    ensures n == Lengths(spans)
  {
    n := 0;
    for i := 0 to |spans|
      invariant n == Lengths(spans[..i])
    {
      assert spans[..i + 1][..i] == spans[..i];
      n := n + (spans[i].end - spans[i].ts);
    }
    assert spans[..|spans|] == spans;
  }

  lemma SortedKernels(intervals: seq<Span>, sorted: seq<Span>)
    requires intervals != [] && NonEmpty(intervals) && forall x :: x in sorted <==> x in intervals
    ensures sorted != [] && NonEmpty(sorted)
    ensures forall t :: Covered(sorted, t) <==> Covered(intervals, t)
  {
    CoveredBy(sorted, intervals);
    assert intervals[0] in sorted;
    forall i | 0 <= i < |sorted|
      ensures sorted[i].ts < sorted[i].end
    {
      assert sorted[i] in intervals;
    }
  }

  lemma BusyBounded(es: seq<Event>, lo: int, hi: int, busy: seq<Span>)
    requires forall i :: 0 <= i < |es| && Finite(es[i]) ==> lo <= es[i].ts.value && SpanOf(es[i]).end <= hi
    requires busy != [] && Separated(busy) && forall t :: Covered(busy, t) <==> Busy(es, t)
    ensures lo <= busy[0].ts && busy[|busy| - 1].end <= hi
  {
    assert Within(busy[0], busy[0].ts);
    assert Covered(busy, busy[0].ts) && Busy(es, busy[0].ts);
    var n := |busy| - 1;
    assert Within(busy[n], busy[n].end - 1);
    assert Covered(busy, busy[n].end - 1) && Busy(es, busy[n].end - 1);
  }

  lemma Counted(es: seq<Event>, lo: int, hi: int, busy: seq<Span>)
    requires busy != [] && Separated(busy) && lo <= busy[0].ts && busy[|busy| - 1].end <= hi
    requires forall t :: Covered(busy, t) <==> Busy(es, t)
    ensures Lengths(busy) == |BusyPoints(es, lo, hi)|
    ensures hi - lo - Lengths(busy) == |IdlePoints(es, lo, hi)|
  {
    hide Busy, Covered, Separated;
    forall t
      ensures t in BusyPoints(es, lo, hi) <==> Covered(busy, t)
    {
      OnlyBetween(busy);
    }
    LengthsCount(busy, BusyPoints(es, lo, hi));
    OnlyBetween(busy);
    assert Range(lo, hi) == BusyPoints(es, lo, hi) + IdlePoints(es, lo, hi);
    assert IdlePoints(es, lo, hi) == Range(lo, hi) - BusyPoints(es, lo, hi);
  }
}
