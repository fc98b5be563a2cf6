// Rebuilding call stacks from the nesting of time intervals (server/dashboard/analysis.py,
// `aggregate_python_stacks`, the branch without ids).
module StackRebuild {

  datatype Event = Event(name: string, tid: int, ts: real, dur: real)

  function End(e: Event): real { e.ts + e.dur }

  // ---- the order of a group ----

  /** The sort key: start ascending, then duration descending. */
  predicate Leq(a: Event, b: Event) {
    a.ts < b.ts || (a.ts == b.ts && a.dur >= b.dur)
  }

  predicate Ordered(es: seq<Event>) {
    forall i, j :: 0 <= i < j < |es| ==> Leq(es[i], es[j])
  }

  function Insert(es: seq<Event>, e: Event): seq<Event> {
    if es == [] || Leq(es[|es| - 1], e) then es + [e]
    else Insert(es[..|es| - 1], e) + [es[|es| - 1]]
  }

  function Sort(es: seq<Event>): seq<Event> {
    if es == [] then [] else Insert(Sort(es[..|es| - 1]), es[|es| - 1])
  }

  lemma {:induction false} InsertOrdered(es: seq<Event>, e: Event)
    requires Ordered(es)
    ensures Ordered(Insert(es, e)) && multiset(Insert(es, e)) == multiset(es) + multiset{e}
  {
    hide Ordered, Leq;
    if es == [] || Leq(es[|es| - 1], e) {
      OrderedMore(es, e);
    } else {
      var front, last := es[..|es| - 1], es[|es| - 1];
      assert es == front + [last];
      OrderedFront(front, e, last);
      InsertOrdered(front, e);
      LastFollows(Insert(front, e), front, e, last);
      OrderedMore(Insert(front, e), last);
    }
  }

  lemma OrderedMore(es: seq<Event>, e: Event)
    requires Ordered(es) && (es == [] || Leq(es[|es| - 1], e))
    ensures Ordered(es + [e])
  {
  }

  lemma OrderedFront(front: seq<Event>, e: Event, last: Event)
    requires Ordered(front + [last]) && !Leq(last, e)
    ensures Ordered(front) && Leq(e, last) && forall i :: 0 <= i < |front| ==> Leq(front[i], last)
  {
    var es := front + [last];
    assert forall i :: 0 <= i < |front| ==> es[i] == front[i];
    assert es[|front|] == last;
  }

  lemma LastFollows(r: seq<Event>, front: seq<Event>, e: Event, last: Event)
    requires multiset(r) == multiset(front) + multiset{e} && Leq(e, last)
    requires forall i :: 0 <= i < |front| ==> Leq(front[i], last)
    ensures forall i :: 0 <= i < |r| ==> Leq(r[i], last)
  {
    forall i | 0 <= i < |r|
      ensures Leq(r[i], last)
    {
      assert r[i] in multiset(r);
      assert r[i] == e || r[i] in front;
    }
  }

  lemma {:induction false} SortOrdered(es: seq<Event>)
    ensures Ordered(Sort(es)) && multiset(Sort(es)) == multiset(es)
  {
    if es != [] {
      SortOrdered(es[..|es| - 1]);
      InsertOrdered(Sort(es[..|es| - 1]), es[|es| - 1]);
      assert es == es[..|es| - 1] + [es[|es| - 1]];
    }
  }

  /** The events with the same start and duration as `e`. */
  function Alike(es: seq<Event>, e: Event): seq<Event> {
    if es == [] then []
    else
      var (front, last) := (Alike(es[..|es| - 1], e), es[|es| - 1]);
      if last.ts == e.ts && last.dur == e.dur then front + [last] else front
  }

  /** The sort is stable: events with the same key stay in the order they came. */
  lemma {:induction false} SortStable(es: seq<Event>, e: Event)
    ensures Alike(Sort(es), e) == Alike(es, e)
  {
    if es != [] {
      var n := |es| - 1;
      SortStable(es[..n], e);
      InsertStable(Sort(es[..n]), es[n], e);
      AlikeMore(Sort(es[..n]), es[n], e);
    }
  }

  lemma {:induction false} InsertStable(es: seq<Event>, x: Event, e: Event)
    ensures Alike(Insert(es, x), e) == Alike(es + [x], e)
  {
    hide Alike;
    if es == [] || Leq(es[|es| - 1], x) {
    } else {
      var front, last := es[..|es| - 1], es[|es| - 1];
      InsertStable(front, x, e);
      AlikeMore(Insert(front, x), last, e);
      AlikeMore(front, x, e);
      AlikeMore(front, last, e);
      AlikeMore(es, x, e);
      assert es == front + [last];
    }
  }

  lemma AlikeMore(es: seq<Event>, x: Event, e: Event)
    ensures Alike(es + [x], e) == Alike(es, e) + (if x.ts == e.ts && x.dur == e.dur then [x] else [])
  {
    assert (es + [x])[..|es|] == es;
  }

  // ---- the stack ----

  predicate Below(indices: seq<nat>, n: nat) {
    forall a :: 0 <= a < |indices| ==> indices[a] < n
  }

  predicate Increasing(indices: seq<nat>) {
    forall a, b :: 0 <= a < b < |indices| ==> indices[a] < indices[b]
  }

  /** The stack after the `while`: ended events are popped off its top. */
  function Popped(es: seq<Event>, stack: seq<nat>, ts: real): (r: seq<nat>)
    requires Below(stack, |es|)
    ensures r <= stack
  {
    if stack != [] && End(es[stack[|stack| - 1]]) <= ts then Popped(es, stack[..|stack| - 1], ts) else stack
  }

  /** The events on the stack when the `i`-th is attributed, bottom first. */
  function OnStack(es: seq<Event>, i: nat): (r: seq<nat>)
    requires i < |es|
    ensures Below(r, i) && Increasing(r)
  {
    var before := if i == 0 then [] else OnStack(es, i - 1) + [i - 1];
    assert Below(before, i) && Increasing(before);
    var after := Popped(es, before, es[i].ts);
    assert forall a :: 0 <= a < |after| ==> after[a] == before[a];
    after
  }

  function Names(es: seq<Event>, indices: seq<nat>): seq<string>
    requires Below(indices, |es|)
  {
    if indices == [] then [] else Names(es, indices[..|indices| - 1]) + [es[indices[|indices| - 1]].name]
  }

  function PathOf(es: seq<Event>, i: nat): seq<string>
    requires i < |es|
  {
    Names(es, OnStack(es, i)) + [es[i].name]
  }

  /** The explicit stack of ends and names holds these events. */
  ghost predicate Represents(es: seq<Event>, stack: seq<nat>, ends: seq<real>, names: seq<string>) {
    && Below(stack, |es|) && |ends| == |stack| && names == Names(es, stack) && |names| == |stack|
    && forall k :: 0 <= k < |ends| ==> ends[k] == End(es[stack[k]])
  }

  // The `while` that pops the events that have ended.
  method PopEnded(es: seq<Event>, ghost stack: seq<nat>, ends: seq<real>, names: seq<string>, ts: real)
    returns (ends': seq<real>, names': seq<string>)
    requires Represents(es, stack, ends, names)
    ensures Represents(es, Popped(es, stack, ts), ends', names')
  {
    hide Popped;
    ghost var left := stack;
    ends', names' := ends, names;
    while ends' != [] && ends'[|ends'| - 1] <= ts
      invariant Represents(es, left, ends', names')
      invariant Popped(es, left, ts) == Popped(es, stack, ts)
      decreases |ends'|
    {
      PoppedStep(es, left, ts);
      left, ends', names' := left[..|left| - 1], ends'[..|ends'| - 1], names'[..|names'| - 1];
    }
    PoppedStep(es, left, ts);
  }

  lemma Pushed(es: seq<Event>, stack: seq<nat>, ends: seq<real>, names: seq<string>, i: nat)
    requires Represents(es, stack, ends, names) && i < |es|
    ensures Represents(es, stack + [i], ends + [End(es[i])], names + [es[i].name])
  {
  }

  /** The loop over one group, with its explicit stack of ends and names. */
  /** The path of an event: the names of the events on the stack, bottom first, and its own. */
  lemma PathNames(es: seq<Event>, i: nat)
    requires i < |es|
    ensures |PathOf(es, i)| == |OnStack(es, i)| + 1 && PathOf(es, i)[|OnStack(es, i)|] == es[i].name
    ensures forall k :: 0 <= k < |OnStack(es, i)| ==> PathOf(es, i)[k] == es[OnStack(es, i)[k]].name
  {
    hide OnStack;
    NamesAre(es, OnStack(es, i));
  }

  lemma {:induction false} NamesAre(es: seq<Event>, indices: seq<nat>)
    requires Below(indices, |es|)
    ensures |Names(es, indices)| == |indices|
    ensures forall k :: 0 <= k < |indices| ==> Names(es, indices)[k] == es[indices[k]].name
  {
    if indices != [] {
      NamesAre(es, indices[..|indices| - 1]);
    }
  }

  method RebuildPaths(es: seq<Event>) returns (paths: seq<seq<string>>)
    ensures |paths| == |es| && forall i :: 0 <= i < |es| ==> paths[i] == PathOf(es, i)
  {
    hide OnStack, Popped, Names, PathOf, Represents;
    paths := [];
    var ends: seq<real>, names: seq<string> := [], [];
    ghost var stack: seq<nat> := [];
    Nothing(es);
    for i := 0 to |es|
      invariant |paths| == i && forall k :: 0 <= k < i ==> paths[k] == PathOf(es, k)
      invariant stack == if i == 0 then [] else OnStack(es, i - 1) + [i - 1]
      invariant Represents(es, stack, ends, names)
    {
      StackStep(es, i);
      ends, names := PopEnded(es, stack, ends, names, es[i].ts);
      stack := OnStack(es, i);
      PathIs(es, i, ends, names);
      paths := paths + [names + [es[i].name]];
      Pushed(es, stack, ends, names, i);
      stack, ends, names := stack + [i], ends + [End(es[i])], names + [es[i].name];
    }
  }

  lemma Nothing(es: seq<Event>)
    ensures Represents(es, [], [], [])
  {
  }

  lemma PathIs(es: seq<Event>, i: nat, ends: seq<real>, names: seq<string>)
    requires i < |es| && Represents(es, OnStack(es, i), ends, names)
    ensures PathOf(es, i) == names + [es[i].name]
  {
  }

  lemma StackStep(es: seq<Event>, i: nat)
    requires i < |es|
    ensures OnStack(es, i) == Popped(es, if i == 0 then [] else OnStack(es, i - 1) + [i - 1], es[i].ts)
  {
  }

  lemma PoppedStep(es: seq<Event>, stack: seq<nat>, ts: real)
    requires Below(stack, |es|)
    ensures Popped(es, stack, ts) ==
      if stack != [] && End(es[stack[|stack| - 1]]) <= ts then Popped(es, stack[..|stack| - 1], ts) else stack
  {
  }

  // ---- the reference ----

  /** The first `n` events that are still open when the `i`-th starts. */
  function StillOpen(es: seq<Event>, i: nat, n: nat): seq<nat>
    requires i < |es| && n <= |es|
  {
    if n == 0 then []
    else StillOpen(es, i, n - 1) + (if End(es[n - 1]) > es[i].ts then [n - 1] else [])
  }

  /** Each event's stack is exactly the earlier events still open at its start, outermost first. */
  ghost predicate Exact(es: seq<Event>) {
    forall i :: 0 <= i < |es| ==> OnStack(es, i) == StillOpen(es, i, i)
  }

  /** `k` starts inside `j` and outlives it, and `i` starts in between. */
  predicate Crossing(es: seq<Event>, j: nat, k: nat, i: nat)
    requires j < |es| && k < |es| && i < |es|
  {
    j < k < i && es[k].ts < End(es[j]) <= es[i].ts < End(es[k])
  }

  ghost predicate NoCrossing(es: seq<Event>) {
    forall j: nat, k: nat, i: nat :: j < |es| && k < |es| && i < |es| ==> !Crossing(es, j, k, i)
  }

  predicate ByStart(es: seq<Event>) {
    forall a, b :: 0 <= a < b < |es| ==> es[a].ts <= es[b].ts
  }

  lemma {:induction false} StillOpenIs(es: seq<Event>, i: nat, n: nat)
    requires i < |es| && n <= |es|
    ensures forall j :: j in StillOpen(es, i, n) <==> 0 <= j < n && End(es[j]) > es[i].ts
    decreases n
  {
    if n > 0 {
      StillOpenIs(es, i, n - 1);
    }
  }

  /** Keeping of `stack` what is open at `i`. */
  function KeepOpen(es: seq<Event>, stack: seq<nat>, i: nat): seq<nat>
    requires i < |es| && Below(stack, |es|)
  {
    if stack == [] then []
    else
      var last := stack[|stack| - 1];
      KeepOpen(es, stack[..|stack| - 1], i) + (if End(es[last]) > es[i].ts then [last] else [])
  }

  lemma StillOpenNext(es: seq<Event>, i: nat, n: nat)
    requires i < |es| && 0 < n <= |es|
    ensures StillOpen(es, i, n) == StillOpen(es, i, n - 1) + (if End(es[n - 1]) > es[i].ts then [n - 1] else [])
  {
  }

  lemma NothingOpen(es: seq<Event>, i: nat)
    requires i < |es|
    ensures StillOpen(es, i, 0) == [] == KeepOpen(es, [], i)
  {
  }

  // What is open at i was open at the start before, or is the event before.
  lemma {:induction false} StillOpenShrinks(es: seq<Event>, i: nat, p: nat, n: nat)
    requires p < i < |es| && n <= |es| && es[p].ts <= es[i].ts
    ensures Below(StillOpen(es, p, n), n)
    ensures StillOpen(es, i, n) == KeepOpen(es, StillOpen(es, p, n), i)
    decreases n
  {
    hide StillOpen, KeepOpen, End;
    NothingOpen(es, i);
    NothingOpen(es, p);
    if n > 0 {
      StillOpenShrinks(es, i, p, n - 1);
      StillOpenNext(es, i, n);
      StillOpenNext(es, p, n);
      var front := StillOpen(es, p, n - 1);
      if End(es[n - 1]) > es[p].ts {
        KeepOpenSnoc(es, front, n - 1, i);
      } else {
        assert front + [] == front;
        assert KeepOpen(es, front, i) + [] == KeepOpen(es, front, i);
      }
    }
  }

  // Popping from the top is keeping the open ones, unless an ended event lies below an open one.
  lemma {:induction false} PoppedIsKept(es: seq<Event>, stack: seq<nat>, i: nat)
    requires i < |es| && Below(stack, |es|) && OpenBelow(es, stack, i)
    ensures Popped(es, stack, es[i].ts) == KeepOpen(es, stack, i)
    decreases |stack|
  {
    if stack != [] {
      var front, last := stack[..|stack| - 1], stack[|stack| - 1];
      if End(es[last]) <= es[i].ts {
        PoppedIsKept(es, front, i);
        assert KeepOpen(es, front, i) + [] == KeepOpen(es, front, i);
      } else {
        AllKept(es, front, i);
        assert stack == front + [last];
      }
    }
  }

  lemma {:induction false} AllKept(es: seq<Event>, stack: seq<nat>, i: nat)
    requires i < |es| && Below(stack, |es|)
    requires forall a :: 0 <= a < |stack| ==> End(es[stack[a]]) > es[i].ts
    ensures KeepOpen(es, stack, i) == stack
    decreases |stack|
  {
    if stack != [] {
      AllKept(es, stack[..|stack| - 1], i);
      assert stack == stack[..|stack| - 1] + [stack[|stack| - 1]];
    }
  }

  lemma {:induction false} NoCrossingExact(es: seq<Event>, i: nat)
    requires ByStart(es) && NoCrossing(es) && i < |es|
    ensures OnStack(es, i) == StillOpen(es, i, i)
    decreases i
  {
    hide OnStack, Popped, StillOpen, NoCrossing, ByStart, KeepOpen, OpenBelow;
    StackStep(es, i);
    StillOpenStep(es, i);
    if i == 0 {
      PoppedStep(es, [], es[0].ts);
    } else {
      var p := i - 1;
      NoCrossingExact(es, p);
      var open := OnStack(es, p);
      var stack := open + [p];
      StartsInOrder(es, p, i);
      StillOpenShrinks(es, i, p, p);
      OpenOnTop(es, open, i);
      PoppedIsKept(es, stack, i);
      KeepOpenSnoc(es, open, p, i);
    }
  }

  /** No ended event lies below an open one. */
  ghost predicate OpenBelow(es: seq<Event>, stack: seq<nat>, i: nat)
    requires i < |es| && Below(stack, |es|)
  {
    forall a, b :: 0 <= a < b < |stack| && End(es[stack[b]]) > es[i].ts ==> End(es[stack[a]]) > es[i].ts
  }

  lemma OpenOnTop(es: seq<Event>, open: seq<nat>, i: nat)
    requires ByStart(es) && NoCrossing(es) && 0 < i < |es|
    requires open == StillOpen(es, i - 1, i - 1) && Below(open, i - 1) && Increasing(open)
    ensures Below(open + [i - 1], |es|) && OpenBelow(es, open + [i - 1], i)
  {
    hide StillOpen, NoCrossing, ByStart;
    var stack := open + [i - 1];
    forall a, b | 0 <= a < b < |stack| && End(es[stack[b]]) > es[i].ts
      ensures End(es[stack[a]]) > es[i].ts
    {
      OpenDoesNotCross(es, open, a, b, i);
    }
  }

  lemma KeepOpenSnoc(es: seq<Event>, open: seq<nat>, p: nat, i: nat)
    requires i < |es| && p < |es| && Below(open, |es|)
    ensures Below(open + [p], |es|)
    ensures KeepOpen(es, open + [p], i) == KeepOpen(es, open, i) + (if End(es[p]) > es[i].ts then [p] else [])
  {
  }

  lemma StillOpenStep(es: seq<Event>, i: nat)
    requires i < |es|
    ensures StillOpen(es, i, i) ==
      if i == 0 then [] else StillOpen(es, i, i - 1) + (if End(es[i - 1]) > es[i].ts then [i - 1] else [])
  {
  }

  lemma StartsInOrder(es: seq<Event>, p: nat, i: nat)
    requires ByStart(es) && p <= i < |es|
    ensures es[p].ts <= es[i].ts
  {
  }

  // Of two events on the stack before `i`, the lower one is open whenever the upper one is.
  lemma OpenDoesNotCross(es: seq<Event>, open: seq<nat>, a: nat, b: nat, i: nat)
    requires ByStart(es) && NoCrossing(es) && 0 < i < |es|
    requires open == StillOpen(es, i - 1, i - 1) && Below(open, i - 1) && Increasing(open)
    requires a < b <= |open| && End(es[(open + [i - 1])[b]]) > es[i].ts
    ensures End(es[open[a]]) > es[i].ts
  {
    StillOpenIs(es, i - 1, i - 1);
    var j, k := open[a], (open + [i - 1])[b];
    assert j in open && j < k < i;
    StartsInOrder(es, k, i - 1);
    assert !Crossing(es, j, k, i);
  }

  // As long as an event is on the stack, so is all that it was put on top of.
  lemma {:induction false} StackBelow(es: seq<Event>, k: nat, m: nat)
    requires k < m < |es| && k in OnStack(es, m)
    ensures OnStack(es, k) + [k] <= OnStack(es, m)
    decreases m
  {
    hide OnStack, Popped, Increasing, Below;
    StackStep(es, m);
    var full := OnStack(es, m - 1) + [m - 1];
    IncreasingSnoc(OnStack(es, m - 1), m - 1);
    if m - 1 != k {
      StackBelow(es, k, m - 1);
    }
    PrefixKeepsLower(full, OnStack(es, m), OnStack(es, k), k);
  }

  lemma BelowStays(es: seq<Event>, j: nat, k: nat, m: nat)
    requires j < k < m < |es| && es[k].ts < End(es[j]) && Exact(es)
    requires es[m].ts < End(es[k])
    ensures j in OnStack(es, m)
  {
    hide OnStack, Exact, End;
    OpenIn(es, m, k);
    OpenIn(es, k, j);
    StackBelow(es, k, m);
    var a :| 0 <= a < |OnStack(es, k)| && OnStack(es, k)[a] == j;
    assert (OnStack(es, k) + [k])[a] == j;
    assert OnStack(es, m)[a] == j;
  }

  lemma OpenIn(es: seq<Event>, m: nat, k: nat)
    requires Exact(es) && k < m < |es| && es[m].ts < End(es[k])
    ensures k in OnStack(es, m)
  {
    hide OnStack, StillOpen, Exact;
    ExactAt(es, m);
    StillOpenIs(es, m, m);
  }

  lemma IncreasingSnoc(r: seq<nat>, m: nat)
    requires Increasing(r) && Below(r, m)
    ensures Increasing(r + [m])
  {
  }

  lemma ExactAt(es: seq<Event>, i: nat)
    requires Exact(es) && i < |es|
    ensures OnStack(es, i) == StillOpen(es, i, i)
  {
  }

  lemma PrefixKeepsLower(full: seq<nat>, prefix: seq<nat>, lower: seq<nat>, k: nat)
    requires prefix <= full && lower + [k] <= full && Increasing(full) && k in prefix
    ensures lower + [k] <= prefix
  {
    var b :| 0 <= b < |prefix| && prefix[b] == k;
    assert full[b] == k && full[|lower|] == k;
    assert b == |lower|;
  }

  /** The rebuilt stacks are exact precisely when no event starts inside another, outlives it, and has a
      further event start in between. */
  lemma ExactIff(es: seq<Event>)
    requires ByStart(es)
    ensures Exact(es) <==> NoCrossing(es)
  {
    if NoCrossing(es) {
      forall i | 0 <= i < |es|
        ensures OnStack(es, i) == StillOpen(es, i, i)
      {
        NoCrossingExact(es, i);
      }
    }
    if Exact(es) {
      forall j: nat, k: nat, i: nat | j < |es| && k < |es| && i < |es|
        ensures !Crossing(es, j, k, i)
      {
        if Crossing(es, j, k, i) {
          BelowStays(es, j, k, i);
          StillOpenIs(es, i, i);
          assert false;
        }
      }
    }
  }

  /** Half-open intervals that are nested or disjoint. */
  predicate NestedOrDisjoint(a: Event, b: Event) {
    || End(a) <= b.ts || End(b) <= a.ts || End(a) <= a.ts || End(b) <= b.ts
    || (a.ts <= b.ts && End(b) <= End(a))
    || (b.ts <= a.ts && End(a) <= End(b))
  }

  /** For every group of pairwise nested or disjoint intervals the rebuild is exact. */
  lemma NestedExact(es: seq<Event>)
    requires forall a, b :: 0 <= a < b < |es| ==> NestedOrDisjoint(es[a], es[b])
    requires Ordered(es)
    ensures Exact(es)
  {
    forall j: nat, k: nat, i: nat | j < |es| && k < |es| && i < |es|
      ensures !Crossing(es, j, k, i)
    {
      if j < k < i {
        assert NestedOrDisjoint(es[j], es[k]) && Leq(es[j], es[k]);
      }
    }
    ExactIff(es);
  }

  /** For a group in any order: sorted by the source's key, its rebuild is exact. */
  lemma NestedGroupExact(es: seq<Event>)
    requires forall a, b :: a in es && b in es ==> NestedOrDisjoint(a, b)
    ensures Exact(Sort(es))
  {
    hide Exact, NestedOrDisjoint, Sort;
    SortOrdered(es);
    var s := Sort(es);
    forall a, b | 0 <= a < b < |s|
      ensures NestedOrDisjoint(s[a], s[b])
    {
      assert s[a] in multiset(s) && s[b] in multiset(s);
      assert s[a] in multiset(es) && s[b] in multiset(es);
    }
    NestedExact(s);
  }

  /** Three events that make a wrong path: the first has ended, and still shows up under the second. */
  lemma CrossingExample()
    ensures var es := [Event("a", 0, 0.0, 3.0), Event("b", 0, 2.0, 4.0), Event("c", 0, 4.0, 1.0)];
            Ordered(es) && Crossing(es, 0, 1, 2) && !Exact(es)
  {
    var es := [Event("a", 0, 0.0, 3.0), Event("b", 0, 2.0, 4.0), Event("c", 0, 4.0, 1.0)];
    hide OnStack;
    assert Crossing(es, 0, 1, 2);
    ExactIff(es);
  }

  // ---- the tree of stacks ----

  datatype Frame = Frame(self: real, children: map<string, Frame>)

  const EMPTY_FRAME := Frame(0.0, map[])

  function Child(n: Frame, name: string): Frame {
    if name in n.children then n.children[name] else EMPTY_FRAME
  }

  /** `_insert_path` from one node on: only the last node of the path takes the time. */
  function InsertPath(n: Frame, p: seq<string>, d: real): Frame
    decreases |p|
  {
    if p == [] then n.(self := n.self + d)
    else n.(children := n.children[p[0] := InsertPath(Child(n, p[0]), p[1..], d)])
  }

  /** The value `_finalize` gives a node: its own time and its children's values. */
  ghost function Value(n: Frame): real
    decreases n, 1
  {
    n.self + ValueOver(n, n.children.Keys)
  }

  ghost function ValueOver(n: Frame, keys: set<string>): real
    requires keys <= n.children.Keys
    decreases n, 0, keys
  {
    if keys == {} then 0.0
    else
      var k :| k in keys;
      Value(n.children[k]) + ValueOver(n, keys - {k})
  }

  lemma {:induction false} ValueOverAny(n: Frame, keys: set<string>, k: string)
    requires keys <= n.children.Keys && k in keys
    ensures ValueOver(n, keys) == Value(n.children[k]) + ValueOver(n, keys - {k})
    decreases keys
  {
    hide Value;
    var j :| j in keys && ValueOver(n, keys) == Value(n.children[j]) + ValueOver(n, keys - {j});
    if j != k {
      ValueOverAny(n, keys - {j}, k);
      ValueOverAny(n, keys - {k}, j);
      assert keys - {j} - {k} == keys - {k} - {j};
    }
  }

  lemma {:induction false} ValueOverSame(n: Frame, n': Frame, keys: set<string>)
    requires keys <= n.children.Keys && keys <= n'.children.Keys
    requires forall k :: k in keys ==> n.children[k] == n'.children[k]
    ensures ValueOver(n, keys) == ValueOver(n', keys)
    decreases keys
  {
    hide Value;
    if keys != {} {
      var k :| k in keys;
      ValueOverAny(n, keys, k);
      ValueOverAny(n', keys, k);
      ValueOverSame(n, n', keys - {k});
    }
  }

  // Replacing one child changes the value by what that child's value changes.
  lemma ChildReplaced(n: Frame, k: string, c: Frame)
    ensures Value(n.(children := n.children[k := c])) == Value(n) - Value(Child(n, k)) + Value(c)
  {
    var n' := n.(children := n.children[k := c]);
    var others := n.children.Keys - {k};
    assert n'.children.Keys == n.children.Keys + {k} && n'.children.Keys - {k} == others;
    ValueOverAny(n', n'.children.Keys, k);
    ValueOverSame(n, n', others);
    if k in n.children {
      ValueOverAny(n, n.children.Keys, k);
    } else {
      assert others == n.children.Keys;
      assert Value(EMPTY_FRAME) == 0.0;
    }
  }

  function FindFrame(n: Frame, p: seq<string>): Frame
    decreases |p|
  {
    if p == [] then n else FindFrame(Child(n, p[0]), p[1..])
  }

  /** Inserting time adds it to the value of every node on its path, and to no other. */
  lemma {:induction false} InsertValue(n: Frame, q: seq<string>, d: real, p: seq<string>)
    ensures Value(FindFrame(InsertPath(n, q, d), p)) == Value(FindFrame(n, p)) + (if p <= q then d else 0.0)
    decreases |q|, |p|
  {
    var n' := InsertPath(n, q, d);
    hide Value, InsertPath, FindFrame;
    InsertSteps(n, q, d, p);
    if p == [] {
      InsertTotal(n, q, d);
    } else if q == [] {
      assert Child(n', p[0]) == Child(n, p[0]);
    } else {
      var c := InsertPath(Child(n, q[0]), q[1..], d);
      if p[0] == q[0] {
        InsertValue(Child(n, q[0]), q[1..], d, p[1..]);
        assert p <= q <==> p[1..] <= q[1..];
      } else {
        assert Child(n', p[0]) == Child(n, p[0]);
      }
    }
  }

  // The first step of the insertion, and of the searches before and after it.
  lemma InsertSteps(n: Frame, q: seq<string>, d: real, p: seq<string>)
    ensures q == [] ==> InsertPath(n, q, d) == n.(self := n.self + d)
    ensures q != [] ==> InsertPath(n, q, d) ==
                        n.(children := n.children[q[0] := InsertPath(Child(n, q[0]), q[1..], d)])
    ensures p == [] ==> FindFrame(n, p) == n && FindFrame(InsertPath(n, q, d), p) == InsertPath(n, q, d)
    ensures p != [] ==>
      && FindFrame(n, p) == FindFrame(Child(n, p[0]), p[1..])
      && FindFrame(InsertPath(n, q, d), p) == FindFrame(Child(InsertPath(n, q, d), p[0]), p[1..])
  {
  }

  lemma {:induction false} InsertTotal(n: Frame, q: seq<string>, d: real)
    ensures Value(InsertPath(n, q, d)) == Value(n) + d
    decreases |q|
  {
    if q == [] {
      ValueOverSame(n, InsertPath(n, q, d), n.children.Keys);
    } else {
      InsertTotal(Child(n, q[0]), q[1..], d);
      ChildReplaced(n, q[0], InsertPath(Child(n, q[0]), q[1..], d));
    }
  }

  function Durations(es: seq<Event>): real {
    if es == [] then 0.0 else Durations(es[..|es| - 1]) + es[|es| - 1].dur
  }

  /** The time of the first `n` events of a group whose path runs through `p`. */
  function TimeUnder(es: seq<Event>, n: nat, p: seq<string>): real
    requires n <= |es|
  {
    if n == 0 then 0.0 else TimeUnder(es, n - 1, p) + (if p <= PathOf(es, n - 1) then es[n - 1].dur else 0.0)
  }

  method InsertGroup(root: Frame, es: seq<Event>) returns (root': Frame)
    ensures forall p :: Value(FindFrame(root', p)) == Value(FindFrame(root, p)) + TimeUnder(es, |es|, p)
  {
    hide Value, FindFrame, PathOf, InsertPath;
    var paths := RebuildPaths(es);
    root' := root;
    for i := 0 to |es|
      invariant forall p :: Value(FindFrame(root', p)) == Value(FindFrame(root, p)) + TimeUnder(es, i, p)
    {
      ghost var was := root';
      root' := InsertPath(root', paths[i], es[i].dur);
      forall p
        ensures Value(FindFrame(root', p)) == Value(FindFrame(root, p)) + TimeUnder(es, i + 1, p)
      {
        InsertValue(was, paths[i], es[i].dur, p);
      }
    }
  }

  lemma {:induction false} TimeUnderRoot(es: seq<Event>, n: nat)
    requires n <= |es|
    ensures TimeUnder(es, n, []) == Durations(es[..n])
    decreases n
  {
    hide PathOf;
    if n > 0 {
      TimeUnderRoot(es, n - 1);
      assert [] <= PathOf(es, n - 1);
      assert es[..n][..n - 1] == es[..n - 1];
    }
  }

  // ---- is time counted twice? ----

  /** One of the first `n` events runs at the time `t`. */
  predicate Runs(es: seq<Event>, n: nat, t: real)
    requires n <= |es|
  {
    exists j :: 0 <= j < n && es[j].ts <= t < End(es[j])
  }

  /** Some earlier event is still open as the `i`-th starts. */
  predicate StartsInside(es: seq<Event>, i: nat)
    requires i < |es|
  {
    exists j :: 0 <= j < i && es[i].ts < End(es[j])
  }

  /** The greatest end of the first `n` events. */
  function LastEnd(es: seq<Event>, n: nat): (r: real)
    requires 0 < n <= |es|
    ensures forall j :: 0 <= j < n ==> End(es[j]) <= r
    ensures exists j :: 0 <= j < n && End(es[j]) == r
  {
    var last := End(es[n - 1]);
    if n == 1 then last
    else
      var before := LastEnd(es, n - 1);
      if last > before then last else before
  }

  /** Where the part of the `i`-th event begins that no earlier one covers; there is such a part if that is before
      its end. */
  function NewFrom(es: seq<Event>, i: nat): real
    requires i < |es|
  {
    if i > 0 && LastEnd(es, i) > es[i].ts then LastEnd(es, i) else es[i].ts
  }

  /** The time that the first `n` events of a group cover, each adding the part that is new. */
  function CoveredTime(es: seq<Event>, n: nat): real
    requires n <= |es|
  {
    if n == 0 then 0.0
    else
      var part := End(es[n - 1]) - NewFrom(es, n - 1);
      CoveredTime(es, n - 1) + (if part > 0.0 then part else 0.0)
  }

  /** So it is: the new part is just the time at which this event runs and no earlier one does. */
  lemma NewPart(es: seq<Event>, i: nat, t: real)
    requires ByStart(es) && i < |es|
    ensures Runs(es, i + 1, t) && !Runs(es, i, t) <==> NewFrom(es, i) <= t < End(es[i])
  {
    if NewFrom(es, i) <= t < End(es[i]) {
      assert es[i].ts <= t;
    } else if es[i].ts <= t < End(es[i]) {
      var j :| 0 <= j < i && End(es[j]) == LastEnd(es, i);
      assert es[j].ts <= es[i].ts;
    }
  }

  lemma {:induction false} CoveredAtMost(es: seq<Event>, n: nat)
    requires n <= |es| && forall i :: 0 <= i < |es| ==> es[i].dur >= 0.0
    ensures CoveredTime(es, n) <= Durations(es[..n])
    ensures CoveredTime(es, n) == Durations(es[..n]) <==>
      forall i :: 0 <= i < n && es[i].dur > 0.0 ==> !StartsInside(es, i)
  {
    hide Durations, StartsInside, LastEnd;
    if n == 0 {
      NoDurations();
    } else {
      CoveredAtMost(es, n - 1);
      assert es[..n][..n - 1] == es[..n - 1];
      DurationsStep(es[..n]);
      InsideIff(es, n - 1);
    }
  }

  lemma NoDurations()
    ensures Durations([]) == 0.0
  {
  }

  lemma DurationsStep(es: seq<Event>)
    requires es != []
    ensures Durations(es) == Durations(es[..|es| - 1]) + es[|es| - 1].dur
  {
  }

  lemma InsideIff(es: seq<Event>, i: nat)
    requires i < |es|
    ensures StartsInside(es, i) <==> i > 0 && LastEnd(es, i) > es[i].ts
  {
  }

  /** No event of positive duration starts inside an earlier one. */
  ghost predicate OneAtATime(es: seq<Event>) {
    forall i :: 0 <= i < |es| && es[i].dur > 0.0 ==> !StartsInside(es, i)
  }

  /** The sum of all durations, which is what the root shows, is the time that a group covers if and only if no event
      of positive duration starts inside an earlier one, crossing intervals included. */
  lemma CountedOnceIff(es: seq<Event>)
    requires ByStart(es) && forall i :: 0 <= i < |es| ==> es[i].dur >= 0.0
    ensures CoveredTime(es, |es|) <= Durations(es)
    ensures Durations(es) == CoveredTime(es, |es|) <==> OneAtATime(es)
  {
    hide Durations, StartsInside, CoveredTime;
    CoveredAtMost(es, |es|);
    assert es[..|es|] == es;
  }

  // ---- nested or disjoint groups: the covered time is that of the events at the top ----

  /** The durations of the first `n` events that have nothing below them on the stack. */
  function TopTime(es: seq<Event>, n: nat): real
    requires n <= |es|
  {
    if n == 0 then 0.0 else TopTime(es, n - 1) + (if OnStack(es, n - 1) == [] then es[n - 1].dur else 0.0)
  }

  ghost predicate NestedGroup(es: seq<Event>) {
    Ordered(es) && forall i, j :: 0 <= i < j < |es| ==> NestedOrDisjoint(es[i], es[j])
  }

  lemma TopIff(es: seq<Event>, i: nat)
    requires NestedGroup(es) && i < |es|
    ensures OnStack(es, i) == [] <==> !StartsInside(es, i)
  {
    hide OnStack, StillOpen;
    NestedExact(es);
    ExactAt(es, i);
    StillOpenIs(es, i, i);
    if StartsInside(es, i) {
      var j :| 0 <= j < i && es[i].ts < End(es[j]);
      assert j in StillOpen(es, i, i);
    }
    assert OnStack(es, i) != [] ==> OnStack(es, i)[0] in OnStack(es, i);
  }

  lemma TopsDisjoint(es: seq<Event>, i: nat, j: nat)
    requires NestedGroup(es) && i < j < |es| && OnStack(es, j) == []
    ensures End(es[i]) <= es[j].ts
  {
    hide OnStack, NestedGroup;
    TopIff(es, j);
  }

  lemma {:induction false} InsideTop(es: seq<Event>, i: nat) returns (t: nat)
    requires NestedGroup(es) && i < |es| && es[i].dur > 0.0
    ensures t <= i && OnStack(es, t) == [] && es[t].ts <= es[i].ts && End(es[i]) <= End(es[t])
    decreases i
  {
    hide OnStack;
    TopIff(es, i);
    if OnStack(es, i) == [] {
      t := i;
    } else {
      var j :| 0 <= j < i && es[i].ts < End(es[j]);
      assert NestedOrDisjoint(es[j], es[i]) && Leq(es[j], es[i]);
      t := InsideTop(es, j);
    }
  }

  lemma {:induction false} TopsCover(es: seq<Event>, n: nat)
    requires NestedGroup(es) && n <= |es| && forall i :: 0 <= i < |es| ==> es[i].dur >= 0.0
    ensures TopTime(es, n) == CoveredTime(es, n)
  {
    hide OnStack, NestedGroup, StartsInside, LastEnd;
    if n > 0 {
      TopsCover(es, n - 1);
      TopIff(es, n - 1);
      InsideIff(es, n - 1);
      if StartsInside(es, n - 1) && es[n - 1].dur > 0.0 {
        InsideEnds(es, n - 1);
      }
    }
  }

  // In a nested or disjoint group what starts inside an earlier event ends by then.
  lemma InsideEnds(es: seq<Event>, i: nat)
    requires NestedGroup(es) && i < |es| && StartsInside(es, i) && es[i].dur > 0.0
    ensures i > 0 && End(es[i]) <= LastEnd(es, i)
  {
    hide LastEnd;
    var j :| 0 <= j < i && es[i].ts < End(es[j]);
    assert NestedOrDisjoint(es[j], es[i]) && Leq(es[j], es[i]);
  }

  /** A call of ten microseconds with one of three inside it: thirteen are counted over the ten that pass. */
  lemma CountedTwiceExample()
    ensures var es := [Event("a", 0, 0.0, 10.0), Event("b", 0, 2.0, 3.0)];
            NestedGroup(es) && Durations(es) == 13.0 && CoveredTime(es, 2) == 10.0
  {
    var es := [Event("a", 0, 0.0, 10.0), Event("b", 0, 2.0, 3.0)];
    assert es[..1] == [es[0]] && es[..1][..0] == [];
    assert Durations(es) == Durations(es[..1]) + 3.0;
    assert NestedOrDisjoint(es[0], es[1]);
    assert LastEnd(es, 1) == 10.0;
    assert CoveredTime(es, 1) == CoveredTime(es, 0) + 10.0;
  }

  // ---- all groups ----

  function OfTid(es: seq<Event>, tid: int): seq<Event> {
    if es == [] then []
    else
      var front := OfTid(es[..|es| - 1], tid);
      if es[|es| - 1].tid == tid then front + [es[|es| - 1]] else front
  }

  /** The thread ids in the order of their first events. */
  function Tids(es: seq<Event>): (r: seq<int>)
    ensures forall i, j :: 0 <= i < j < |r| ==> r[i] != r[j]
    ensures forall i :: 0 <= i < |es| ==> es[i].tid in r
  {
    if es == [] then []
    else
      var front := Tids(es[..|es| - 1]);
      if es[|es| - 1].tid in front then front else front + [es[|es| - 1].tid]
  }

  /** The time of all groups whose path runs through `p`. */
  function TimesUnder(es: seq<Event>, tids: seq<int>, p: seq<string>): real {
    if tids == [] then 0.0
    else
      var group := Sort(OfTid(es, tids[|tids| - 1]));
      TimesUnder(es, tids[..|tids| - 1], p) + TimeUnder(group, |group|, p)
  }

  lemma {:induction false} TimesUnderRoot(es: seq<Event>, tids: seq<int>)
    ensures TimesUnder(es, tids, []) == GroupTimes(es, tids)
  {
    hide OfTid, TimeUnder, Sort;
    if tids != [] {
      TimesUnderRoot(es, tids[..|tids| - 1]);
      var group := OfTid(es, tids[|tids| - 1]);
      SortOrdered(group);
      DurationsPermuted(group, Sort(group));
      TimeUnderRoot(Sort(group), |Sort(group)|);
      assert Sort(group)[..|Sort(group)|] == Sort(group);
    }
  }

  function GroupTimes(es: seq<Event>, tids: seq<int>): real {
    if tids == [] then 0.0
    else GroupTimes(es, tids[..|tids| - 1]) + Durations(OfTid(es, tids[|tids| - 1]))
  }

  lemma {:induction false} GroupTimesAdd(es: seq<Event>, e: Event, tids: seq<int>)
    requires forall i, j :: 0 <= i < j < |tids| ==> tids[i] != tids[j]
    ensures GroupTimes(es + [e], tids) == GroupTimes(es, tids) + (if e.tid in tids then e.dur else 0.0)
    decreases |tids|
  {
    if tids != [] {
      var front, last := tids[..|tids| - 1], tids[|tids| - 1];
      GroupTimesAdd(es, e, front);
      assert (es + [e])[..|es|] == es;
      var own := OfTid(es, last);
      assert (own + [e])[..|own|] == own;
      assert tids == front + [last];
    }
  }

  /** Grouping by thread neither loses nor repeats time. */
  lemma {:induction false} GroupsConserve(es: seq<Event>, tids: seq<int>)
    requires forall i, j :: 0 <= i < j < |tids| ==> tids[i] != tids[j]
    requires forall i :: 0 <= i < |es| ==> es[i].tid in tids
    ensures GroupTimes(es, tids) == Durations(es)
    decreases |es|
  {
    hide GroupTimes;
    if es == [] {
      NoGroupTimes(tids);
    } else {
      var front, last := es[..|es| - 1], es[|es| - 1];
      GroupsConserve(front, tids);
      GroupTimesAdd(front, last, tids);
      assert es == front + [last];
    }
  }

  lemma {:induction false} NoGroupTimes(tids: seq<int>)
    ensures GroupTimes([], tids) == 0.0
  {
    if tids != [] {
      NoGroupTimes(tids[..|tids| - 1]);
    }
  }

  lemma {:induction false} DurationsPermuted(a: seq<Event>, b: seq<Event>)
    requires multiset(a) == multiset(b)
    ensures Durations(a) == Durations(b)
    decreases |a|
  {
    hide Durations;
    assert |multiset(a)| == |multiset(b)|;
    if a == [] {
      assert b == [];
    } else {
      var i := Elsewhere(a, b);
      DurationsRemove(a, |a| - 1);
      DurationsRemove(b, i);
      assert a[..|a| - 1] + a[|a|..] == a[..|a| - 1];
      DurationsPermuted(a[..|a| - 1], b[..i] + b[i + 1..]);
    }
  }

  // Where a permutation has the last event, and what it has besides.
  lemma Elsewhere(a: seq<Event>, b: seq<Event>) returns (i: nat)
    requires multiset(a) == multiset(b) && a != []
    ensures i < |b| && b[i] == a[|a| - 1]
    ensures multiset(a[..|a| - 1]) == multiset(b[..i] + b[i + 1..])
  {
    i := Occurs(b, a[|a| - 1]);
    TakenOut(a, |a| - 1);
    TakenOut(b, i);
    assert a[..|a| - 1] + a[|a|..] == a[..|a| - 1];
  }

  lemma Occurs(b: seq<Event>, e: Event) returns (i: nat)
    requires e in multiset(b)
    ensures i < |b| && b[i] == e
  {
    i :| 0 <= i < |b| && b[i] == e;
  }

  lemma TakenOut(b: seq<Event>, i: nat)
    requires i < |b|
    ensures multiset(b[..i] + b[i + 1..]) == multiset(b) - multiset{b[i]}
  {
    var front, back := b[..i], b[i + 1..];
    assert b == front + ([b[i]] + back);
    assert multiset(b) == multiset(front) + (multiset{b[i]} + multiset(back));
  }

  lemma {:induction false} DurationsRemove(b: seq<Event>, i: nat)
    requires i < |b|
    ensures Durations(b) == Durations(b[..i] + b[i + 1..]) + b[i].dur
    decreases |b|
  {
    if i == |b| - 1 {
      assert b[..i] + b[i + 1..] == b[..|b| - 1];
    } else {
      var front := b[..|b| - 1];
      DurationsRemove(front, i);
      var rest := b[..i] + b[i + 1..];
      assert rest[..|rest| - 1] == front[..i] + front[i + 1..];
    }
  }

  /** The time that the groups cover, each on its own. */
  function CoveredTimes(es: seq<Event>, tids: seq<int>): real {
    if tids == [] then 0.0
    else
      var group := Sort(OfTid(es, tids[|tids| - 1]));
      CoveredTimes(es, tids[..|tids| - 1]) + CoveredTime(group, |group|)
  }

  lemma {:induction false} GroupsCovered(es: seq<Event>, tids: seq<int>)
    requires forall i :: 0 <= i < |es| ==> es[i].dur >= 0.0
    ensures CoveredTimes(es, tids) <= GroupTimes(es, tids)
    ensures GroupTimes(es, tids) == CoveredTimes(es, tids) <==>
      forall k :: 0 <= k < |tids| ==> OneAtATime(Sort(OfTid(es, tids[k])))
  {
    hide OfTid, Sort, OneAtATime, CoveredTime, Durations;
    if tids != [] {
      var n := |tids| - 1;
      GroupsCovered(es, tids[..n]);
      GroupCovered(es, tids[n]);
    }
  }

  lemma GroupCovered(es: seq<Event>, tid: int)
    requires forall i :: 0 <= i < |es| ==> es[i].dur >= 0.0
    ensures var group := Sort(OfTid(es, tid));
            && CoveredTime(group, |group|) <= Durations(OfTid(es, tid))
            && (Durations(OfTid(es, tid)) == CoveredTime(group, |group|) <==> OneAtATime(group))
  {
    hide OfTid, Sort, OneAtATime, CoveredTime, Durations;
    var own := OfTid(es, tid);
    SortOrdered(own);
    DurationsPermuted(own, Sort(own));
    OwnEvents(es, tid);
    forall i | 0 <= i < |Sort(own)|
      ensures Sort(own)[i].dur >= 0.0
    {
      assert Sort(own)[i] in multiset(Sort(own));
      assert Sort(own)[i] in own;
    }
    CountedOnceIff(Sort(own));
  }

  lemma {:induction false} OwnEvents(es: seq<Event>, tid: int)
    ensures forall e :: e in OfTid(es, tid) ==> e in es
  {
    if es != [] {
      OwnEvents(es[..|es| - 1], tid);
    }
  }

  /** What the root shows is the time that the threads are in some call, each on its own, if and only if no call of
      positive duration starts inside an earlier one of its thread. */
  lemma RootCountsOnceIff(es: seq<Event>)
    requires forall i :: 0 <= i < |es| ==> es[i].dur >= 0.0
    ensures Durations(es) == CoveredTimes(es, Tids(es)) <==>
      forall k :: 0 <= k < |Tids(es)| ==> OneAtATime(Sort(OfTid(es, Tids(es)[k])))
  {
    hide OfTid, Sort, OneAtATime, Tids;
    GroupsConserve(es, Tids(es));
    GroupsCovered(es, Tids(es));
  }

  /** The whole branch: every node's value is the time of the events, of all threads, whose rebuilt path runs
      through it, and the root's is the sum of all durations. */
  method AggregateStacks(es: seq<Event>) returns (root: Frame)
    ensures forall p :: Value(FindFrame(root, p)) == TimesUnder(es, Tids(es), p)
    ensures Value(root) == Durations(es)
  {
    hide OfTid, TimeUnder, Value, FindFrame, Sort;
    root := EMPTY_FRAME;
    EmptyValues();
    var tids := Tids(es);
    for i := 0 to |tids|
      invariant forall p :: Value(FindFrame(root, p)) == TimesUnder(es, tids[..i], p)
    {
      root := InsertGroup(root, Sort(OfTid(es, tids[i])));
      assert tids[..i + 1][..i] == tids[..i];
    }
    assert tids[..|tids|] == tids;
    RootFound(root);
    TimesUnderRoot(es, tids);
    GroupsConserve(es, tids);
  }

  lemma RootFound(root: Frame)
    ensures FindFrame(root, []) == root
  {
  }

  lemma EmptyValues()
    ensures forall p :: Value(FindFrame(EMPTY_FRAME, p)) == 0.0
  {
    forall p
      ensures Value(FindFrame(EMPTY_FRAME, p)) == 0.0
    {
      EmptyFound(p);
      EmptyValue();
    }
  }

  lemma {:induction false} EmptyFound(p: seq<string>)
    ensures FindFrame(EMPTY_FRAME, p) == EMPTY_FRAME
  {
    if p != [] {
      EmptyFound(p[1..]);
    }
  }

  lemma EmptyValue()
    ensures Value(EMPTY_FRAME) == 0.0
  {
  }
}
