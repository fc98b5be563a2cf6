// What a trace holds after a run of pushes, from the pushes alone: the records and their order, the sizes they are
// admitted by, and the window that closes the file (agent/collection_framework/fifo/src/receiver.rs).
module TraceRuns {
  import opened Wrappers
  import opened TraceWriter

  predicate IsEvent(p: Push) { p.PushCpu? || p.PushGpu? }

  /** An identifier outside the container: 0 when missing, cut to 32 bits, and looked up. */
  function Outside(cfg: Config, id: Option<Usize>): Usize {
    var low: U32 := (if id.Some? then id.value else 0) % 4_294_967_296;
    if cfg.pidMaps.Some? && low in cfg.pidMaps.value then cfg.pidMaps.value[low] else low
  }

  /** The process and the thread of an event: identifiers are mapped for the host's events, not for the device's. */
  function PidOf(cfg: Config, p: Push): Usize
    requires IsEvent(p)
  {
    if p.PushCpu? then Outside(cfg, p.event.pid) else if p.event.pid.Some? then p.event.pid.value else 0
  }

  function TidOf(cfg: Config, p: Push): Usize
    requires IsEvent(p)
  {
    if p.PushCpu? then Outside(cfg, p.event.tid) else if p.event.tid.Some? then p.event.tid.value else 0
  }

  /** Some of the pushes is an event of the host, or of the device, with this process. */
  predicate UsesPid(cfg: Config, ps: seq<Push>, gpu: bool, pid: Usize) {
    exists i :: 0 <= i < |ps| && IsEvent(ps[i]) && ps[i].PushGpu? == gpu && PidOf(cfg, ps[i]) == pid
  }

  predicate UsesTid(cfg: Config, ps: seq<Push>, gpu: bool, tid: Usize) {
    exists i :: 0 <= i < |ps| && IsEvent(ps[i]) && ps[i].PushGpu? == gpu && TidOf(cfg, ps[i]) == tid
  }

  // ---- the records ----

  /** The records that introduce the process of an event, unless an earlier one has it. */
  function ProcessRecords(cfg: Config, before: seq<Push>, p: Push): seq<Record>
    requires IsEvent(p)
  {
    var (pid, ts) := (PidOf(cfg, p), p.event.ts);
    if UsesPid(cfg, before, p.PushGpu?, pid) then []
    else [ProcessName(pid, ts, cfg.procName), ProcessLabels(pid, ts, p.PushGpu?),
          ProcessSortIndex(pid, ts, if p.PushGpu? then 0xFFFF_FFFF_FFFF_FFFF - pid else pid)]
  }

  /** Those that introduce its thread. */
  function ThreadRecords(cfg: Config, before: seq<Push>, p: Push): seq<Record>
    requires IsEvent(p)
  {
    var (pid, tid, ts) := (PidOf(cfg, p), TidOf(cfg, p), p.event.ts);
    if UsesTid(cfg, before, p.PushGpu?, tid) then []
    else [ThreadName(pid, tid, ts, p.PushGpu?), ThreadSortIndex(pid, tid, ts)]
  }

  /** The event, as it is or with its identifiers mapped, and the flow that leads from or to it. */
  function EventRecords(cfg: Config, p: Push): seq<Record>
    requires IsEvent(p)
  {
    var (pid, tid) := (PidOf(cfg, p), TidOf(cfg, p));
    match p
    case PushCpu(e, id, starts) =>
      [Cupti(Event(Some(pid), Some(tid), e.ts, e.rest)), Flow(starts, e.ts, pid, tid, id)]
    case PushGpu(e, id) => [Cupti(e), Flow(false, e.ts, pid, tid, id)]
  }

  /** What one admitted push adds behind the earlier ones. */
  function Block(cfg: Config, before: seq<Push>, p: Push): seq<Record> {
    match p
    case PushProps(_) => []
    case PushMetadata(text) => [Metadata(text)]
    case _ => ProcessRecords(cfg, before, p) + ThreadRecords(cfg, before, p) + EventRecords(cfg, p)
  }

  function Records(cfg: Config, ps: seq<Push>): seq<Record> {
    if ps == [] then [] else Records(cfg, ps[..|ps| - 1]) + Block(cfg, ps[..|ps| - 1], ps[|ps| - 1])
  }

  function Properties(ps: seq<Push>): seq<string> {
    if ps == [] then []
    else Properties(ps[..|ps| - 1]) + (if ps[|ps| - 1].PushProps? then [ps[|ps| - 1].text] else [])
  }

  /** The pushes that a run lets in. */
  function Admitted(legacy: bool, dump: Dump, cfg: Config, ps: seq<Push>): seq<Push> {
    if ps == [] then []
    else
      var n := |ps| - 1;
      Admitted(legacy, dump, cfg, ps[..n])
      + (if Accepts(dump, cfg, Run(legacy, dump, cfg, ps[..n]), ps[n]) then [ps[n]] else [])
  }

  // ---- sizes ----

  function Lengths(dump: Dump, rs: seq<Record>): nat {
    if rs == [] then 0 else Lengths(dump, rs[..|rs| - 1]) + |dump(rs[|rs| - 1])|
  }

  /** What an admitted push is charged: its event as it came and its flow, and, in the legacy output only, the records
      that introduce its process and thread. */
  function Charged(legacy: bool, dump: Dump, cfg: Config, before: seq<Push>, p: Push): nat {
    if !IsEvent(p) then 0
    else
      |dump(Cupti(p.event))| + |dump(EventRecords(cfg, p)[1])|
      + (if legacy then Lengths(dump, ProcessRecords(cfg, before, p) + ThreadRecords(cfg, before, p)) else 0)
  }

  function TotalCharge(legacy: bool, dump: Dump, cfg: Config, ps: seq<Push>): nat {
    if ps == [] then 0
    else
      TotalCharge(legacy, dump, cfg, ps[..|ps| - 1]) + Charged(legacy, dump, cfg, ps[..|ps| - 1], ps[|ps| - 1])
  }

  // ---- the window ----

  /** The time of some event among the pushes. */
  predicate HasTime(ps: seq<Push>, t: real) {
    exists i :: 0 <= i < |ps| && IsEvent(ps[i]) && ps[i].event.ts == Some(t)
  }

  /** The window begins with the earliest event and ends with the latest, starting from the greatest double and 0. */
  ghost predicate WindowOf(ps: seq<Push>, begin: real, end: real) {
    && (forall t :: HasTime(ps, t) ==> begin <= t <= end)
    && begin <= F64_MAX && (begin == F64_MAX || HasTime(ps, begin))
    && 0.0 <= end && (end == 0.0 || HasTime(ps, end))
  }

  // ---- what a writer knows of the pushes it has let in ----

  ghost predicate Knows(cfg: Config, w: Writer, ps: seq<Push>) {
    && (forall x :: x in w.cpuPid <==> UsesPid(cfg, ps, false, x))
    && (forall x :: x in w.gpuPid <==> UsesPid(cfg, ps, true, x))
    && (forall x :: x in w.cpuTid <==> UsesTid(cfg, ps, false, x))
    && (forall x :: x in w.gpuTid <==> UsesTid(cfg, ps, true, x))
  }

  ghost predicate Holds(legacy: bool, dump: Dump, cfg: Config, w: Writer, ps: seq<Push>) {
    && Knows(cfg, w, ps) && WindowOf(ps, w.begin, w.end) && w.deviceProperties == Properties(ps)
    && w.size == TotalCharge(legacy, dump, cfg, ps)
    && (if legacy then w.traceEvents == Records(cfg, ps) && w.side == ""
        else w.traceEvents == [] && w.side == Commas(dump, Records(cfg, ps)))
  }

  // ---- one push ----

  lemma OutsideIsMapped(cfg: Config, p: Push)
    requires IsEvent(p)
    ensures p.PushCpu? ==> PidOf(cfg, p) == Mapped(cfg, p.event.pid) && TidOf(cfg, p) == Mapped(cfg, p.event.tid)
    ensures p.PushGpu? ==> PidOf(cfg, p) == Plain(p.event.pid) && TidOf(cfg, p) == Plain(p.event.tid)
    ensures EventRecords(cfg, p) == OwnRecords(cfg, p)
  {
  }

  lemma UsesMore(cfg: Config, ps: seq<Push>, p: Push, gpu: bool, x: Usize)
    ensures UsesPid(cfg, ps + [p], gpu, x) <==>
      UsesPid(cfg, ps, gpu, x) || (IsEvent(p) && p.PushGpu? == gpu && PidOf(cfg, p) == x)
    ensures UsesTid(cfg, ps + [p], gpu, x) <==>
      UsesTid(cfg, ps, gpu, x) || (IsEvent(p) && p.PushGpu? == gpu && TidOf(cfg, p) == x)
  {
    var all := ps + [p];
    assert all[|ps|] == p && forall i :: 0 <= i < |ps| ==> all[i] == ps[i];
  }

  lemma KnowsMore(cfg: Config, w: Writer, w': Writer, ps: seq<Push>, p: Push)
    requires Knows(cfg, w, ps)
    requires IsEvent(p) && p.PushCpu? ==>
      && w'.cpuPid == w.cpuPid + {PidOf(cfg, p)} && w'.cpuTid == w.cpuTid + {TidOf(cfg, p)}
      && w'.gpuPid == w.gpuPid && w'.gpuTid == w.gpuTid
    requires IsEvent(p) && p.PushGpu? ==>
      && w'.gpuPid == w.gpuPid + {PidOf(cfg, p)} && w'.gpuTid == w.gpuTid + {TidOf(cfg, p)}
      && w'.cpuPid == w.cpuPid && w'.cpuTid == w.cpuTid
    requires !IsEvent(p) ==>
      w'.cpuPid == w.cpuPid && w'.cpuTid == w.cpuTid && w'.gpuPid == w.gpuPid && w'.gpuTid == w.gpuTid
    ensures Knows(cfg, w', ps + [p])
  {
    hide PidOf, TidOf, UsesPid, UsesTid;
    forall x: Usize
      ensures x in w'.cpuPid <==> UsesPid(cfg, ps + [p], false, x)
      ensures x in w'.gpuPid <==> UsesPid(cfg, ps + [p], true, x)
      ensures x in w'.cpuTid <==> UsesTid(cfg, ps + [p], false, x)
      ensures x in w'.gpuTid <==> UsesTid(cfg, ps + [p], true, x)
    {
      UsesMore(cfg, ps, p, false, x);
      UsesMore(cfg, ps, p, true, x);
    }
  }

  lemma WindowMore(ps: seq<Push>, p: Push, w: Writer)
    requires WindowOf(ps, w.begin, w.end) && IsEvent(p)
    ensures var b := Boundary(w, p.event.ts); WindowOf(ps + [p], b.begin, b.end)
  {
    var b := Boundary(w, p.event.ts);
    forall t
      ensures HasTime(ps + [p], t) <==> HasTime(ps, t) || p.event.ts == Some(t)
    {
      TimesMore(ps, p, t);
    }
  }

  lemma TimesMore(ps: seq<Push>, p: Push, t: real)
    ensures HasTime(ps + [p], t) <==> HasTime(ps, t) || (IsEvent(p) && p.event.ts == Some(t))
  {
    var all := ps + [p];
    assert all[|ps|] == p && forall i :: 0 <= i < |ps| ==> all[i] == ps[i];
  }

  lemma WindowSame(ps: seq<Push>, p: Push, begin: real, end: real)
    requires WindowOf(ps, begin, end) && !IsEvent(p)
    ensures WindowOf(ps + [p], begin, end)
  {
    hide HasTime;
    forall t
      ensures HasTime(ps + [p], t) <==> HasTime(ps, t)
    {
      TimesMore(ps, p, t);
    }
  }

  lemma {:induction false} LengthsAre(dump: Dump, rs: seq<Record>)
    ensures Lengths(dump, rs) == Length(dump, rs)
  {
    if rs != [] {
      LengthsAre(dump, rs[..|rs| - 1]);
    }
  }

  lemma {:induction false} LengthsAppend(dump: Dump, a: seq<Record>, b: seq<Record>)
    ensures Lengths(dump, a + b) == Lengths(dump, a) + Lengths(dump, b)
  {
    if b == [] {
      assert a + b == a;
    } else {
      assert (a + b)[..|a + b| - 1] == a + b[..|b| - 1];
      LengthsAppend(dump, a, b[..|b| - 1]);
    }
  }

  /** A writer extended by these records. */
  ghost predicate Extended(legacy: bool, dump: Dump, w: Writer, w': Writer, rs: seq<Record>, charge: nat) {
    && w'.size == w.size + charge && w'.deviceProperties == w.deviceProperties
    && (if legacy then w'.traceEvents == w.traceEvents + rs && w'.side == w.side
        else w'.traceEvents == w.traceEvents && w'.side == w.side + Commas(dump, rs))
  }

  lemma EmitExtends(legacy: bool, dump: Dump, w: Writer, rs: seq<Record>)
    ensures Extended(legacy, dump, w, Emit(legacy, dump, w, rs), rs, 0)
    ensures Extended(legacy, dump, w, EmitIntro(legacy, dump, w, rs), rs, if legacy then Lengths(dump, rs) else 0)
  {
    hide Commas, Length, Lengths;
    LengthsAre(dump, rs);
  }

  lemma NothingExtends(legacy: bool, dump: Dump, w: Writer)
    ensures Extended(legacy, dump, w, w, [], 0)
  {
    assert w.side + "" == w.side;
  }

  lemma ExtendsTwice(legacy: bool, dump: Dump, w: Writer, u: Writer, v: Writer,
                     a: seq<Record>, m: nat, b: seq<Record>, n: nat)
    requires Extended(legacy, dump, w, u, a, m) && Extended(legacy, dump, u, v, b, n)
    ensures Extended(legacy, dump, w, v, a + b, m + n)
  {
    hide Commas;
    CommasAppend(dump, a, b);
  }

  function IntroCharge(legacy: bool, dump: Dump, rs: seq<Record>): nat { if legacy then Lengths(dump, rs) else 0 }

  lemma ProcessStep(legacy: bool, dump: Dump, cfg: Config, w: Writer, before: seq<Push>, p: Push)
    requires IsEvent(p) && Knows(cfg, w, before)
    ensures var (pid, ts) := (PidOf(cfg, p), p.event.ts);
            var u := if p.PushCpu? then UpdateCpuPid(legacy, dump, cfg, w, pid, ts)
                     else UpdateGpuPid(legacy, dump, cfg, w, pid, ts);
            var rs := ProcessRecords(cfg, before, p);
            && Extended(legacy, dump, w, u, rs, IntroCharge(legacy, dump, rs))
            && u.begin == w.begin && u.end == w.end && u.cpuTid == w.cpuTid && u.gpuTid == w.gpuTid
            && u.cpuPid == (if p.PushCpu? then w.cpuPid + {pid} else w.cpuPid)
            && u.gpuPid == (if p.PushGpu? then w.gpuPid + {pid} else w.gpuPid)
  {
    hide Commas, Length, Lengths, PidOf, UsesPid, UsesTid;
    var pid := PidOf(cfg, p);
    var rs := PidObjects(cfg, pid, p.event.ts, p.PushGpu?);
    NothingExtends(legacy, dump, w);
    NoLengths(dump);
    if p.PushCpu? {
      EmitExtends(legacy, dump, w.(cpuPid := w.cpuPid + {pid}), rs);
    } else {
      EmitExtends(legacy, dump, w.(gpuPid := w.gpuPid + {pid}), rs);
    }
  }

  lemma NoLengths(dump: Dump)
    ensures Lengths(dump, []) == 0
  {
  }

  lemma ThreadStep(legacy: bool, dump: Dump, cfg: Config, w: Writer, before: seq<Push>, p: Push)
    requires IsEvent(p)
    requires forall x :: x in (if p.PushCpu? then w.cpuTid else w.gpuTid) <==> UsesTid(cfg, before, p.PushGpu?, x)
    ensures var (pid, tid, ts) := (PidOf(cfg, p), TidOf(cfg, p), p.event.ts);
            var u := if p.PushCpu? then UpdateCpuTid(legacy, dump, w, tid, pid, ts)
                     else UpdateGpuTid(legacy, dump, w, tid, pid, ts);
            var rs := ThreadRecords(cfg, before, p);
            && Extended(legacy, dump, w, u, rs, IntroCharge(legacy, dump, rs))
            && u.begin == w.begin && u.end == w.end && u.cpuPid == w.cpuPid && u.gpuPid == w.gpuPid
            && u.cpuTid == (if p.PushCpu? then w.cpuTid + {tid} else w.cpuTid)
            && u.gpuTid == (if p.PushGpu? then w.gpuTid + {tid} else w.gpuTid)
  {
    hide Commas, Length, Lengths, PidOf, TidOf, UsesPid, UsesTid;
    var tid := TidOf(cfg, p);
    var rs := TidObjects(PidOf(cfg, p), tid, p.event.ts, p.PushGpu?);
    NothingExtends(legacy, dump, w);
    NoLengths(dump);
    if p.PushCpu? {
      EmitExtends(legacy, dump, w.(cpuTid := w.cpuTid + {tid}), rs);
    } else {
      EmitExtends(legacy, dump, w.(gpuTid := w.gpuTid + {tid}), rs);
    }
  }

  // The boundary, the introducing records and then the event's own.
  lemma EventStep(legacy: bool, dump: Dump, cfg: Config, w: Writer, before: seq<Push>, p: Push)
    requires IsEvent(p) && Knows(cfg, w, before) && Accepts(dump, cfg, w, p)
    ensures var w' := Pushed(legacy, dump, cfg, w, p);
            && Extended(legacy, dump, w, w', Block(cfg, before, p), Charged(legacy, dump, cfg, before, p))
            && w'.begin == Boundary(w, p.event.ts).begin && w'.end == Boundary(w, p.event.ts).end
            && Knows(cfg, w', before + [p])
  {
    hide Commas, Lengths, Length, Emit, EmitIntro, Boundary, Mapped, Plain, UpdateCpuPid, UpdateCpuTid, UpdateGpuPid,
      UpdateGpuTid, PidOf, TidOf, UsesPid, UsesTid, ProcessRecords, ThreadRecords, EventRecords, OwnRecords, Accepts;
    BoundaryOnly(dump, w, p.event.ts, legacy);
    OutsideIsMapped(cfg, p);
    var b := Boundary(w, p.event.ts);
    var (pid, tid, ts) := (PidOf(cfg, p), TidOf(cfg, p), p.event.ts);
    ProcessStep(legacy, dump, cfg, b, before, p);
    var u := if p.PushCpu? then UpdateCpuPid(legacy, dump, cfg, b, pid, ts)
             else UpdateGpuPid(legacy, dump, cfg, b, pid, ts);
    ThreadStep(legacy, dump, cfg, u, before, p);
    var v := if p.PushCpu? then UpdateCpuTid(legacy, dump, u, tid, pid, ts)
             else UpdateGpuTid(legacy, dump, u, tid, pid, ts);
    assert Introduced(legacy, dump, cfg, w, p) == v;
    var own := OwnRecords(cfg, p);
    EmitExtends(legacy, dump, v.(size := v.size + Charge(dump, cfg, p)), own);
    EmitKeeps(legacy, dump, v.(size := v.size + Charge(dump, cfg, p)), own);
    var w' := Pushed(legacy, dump, cfg, w, p);
    var (rs, ts') := (ProcessRecords(cfg, before, p), ThreadRecords(cfg, before, p));
    ExtendsTwice(legacy, dump, b, u, v, rs, IntroCharge(legacy, dump, rs), ts', IntroCharge(legacy, dump, ts'));
    LengthsAppend(dump, rs, ts');
    assert Extended(legacy, dump, v, w', own, Charge(dump, cfg, p));
    ExtendsTwice(legacy, dump, b, v, w', rs + ts', IntroCharge(legacy, dump, rs) + IntroCharge(legacy, dump, ts'),
      own, Charge(dump, cfg, p));
    KnowsMore(cfg, w, w', before, p);
  }

  lemma BoundaryOnly(dump: Dump, w: Writer, ts: Option<real>, legacy: bool)
    ensures var b := Boundary(w, ts); b == w.(begin := b.begin, end := b.end)
  {
  }

  lemma EmitKeeps(legacy: bool, dump: Dump, w: Writer, rs: seq<Record>)
    ensures var w' := Emit(legacy, dump, w, rs);
            && w'.begin == w.begin && w'.end == w.end && w'.cpuPid == w.cpuPid && w'.cpuTid == w.cpuTid
            && w'.gpuPid == w.gpuPid && w'.gpuTid == w.gpuTid
  {
    hide Commas;
  }

  lemma PushStep(legacy: bool, dump: Dump, cfg: Config, w: Writer, before: seq<Push>, p: Push)
    requires Holds(legacy, dump, cfg, w, before) && Accepts(dump, cfg, w, p)
    ensures Holds(legacy, dump, cfg, Pushed(legacy, dump, cfg, w, p), before + [p])
  {
    hide Commas, Knows, WindowOf, Pushed, Boundary, Accepts, Block, Charged;
    var w' := Pushed(legacy, dump, cfg, w, p);
    MoreRecords(legacy, dump, cfg, before, p);
    CommasAppend(dump, Records(cfg, before), Block(cfg, before, p));
    if IsEvent(p) {
      EventStep(legacy, dump, cfg, w, before, p);
      WindowMore(before, p, w);
    } else {
      PlainStep(legacy, dump, cfg, w, before, p);
      WindowSame(before, p, w.begin, w.end);
    }
  }

  lemma MoreRecords(legacy: bool, dump: Dump, cfg: Config, ps: seq<Push>, p: Push)
    ensures Records(cfg, ps + [p]) == Records(cfg, ps) + Block(cfg, ps, p)
    ensures Properties(ps + [p]) == Properties(ps) + (if p.PushProps? then [p.text] else [])
    ensures TotalCharge(legacy, dump, cfg, ps + [p]) ==
      TotalCharge(legacy, dump, cfg, ps) + Charged(legacy, dump, cfg, ps, p)
  {
    hide Block, Charged;
    assert (ps + [p])[..|ps|] == ps && (ps + [p])[|ps|] == p;
  }

  // Properties and metadata.
  lemma PlainStep(legacy: bool, dump: Dump, cfg: Config, w: Writer, before: seq<Push>, p: Push)
    requires !IsEvent(p) && Knows(cfg, w, before) && Accepts(dump, cfg, w, p)
    ensures var w' := Pushed(legacy, dump, cfg, w, p);
            && w'.size == w.size + Charged(legacy, dump, cfg, before, p)
            && w'.deviceProperties == w.deviceProperties + (if p.PushProps? then [p.text] else [])
            && w'.traceEvents == w.traceEvents + (if legacy then Block(cfg, before, p) else [])
            && w'.side == w.side + (if legacy then "" else Commas(dump, Block(cfg, before, p)))
            && w'.begin == w.begin && w'.end == w.end && Knows(cfg, w', before + [p])
  {
    hide Commas, Knows, Accepts;
    var w' := Pushed(legacy, dump, cfg, w, p);
    KnowsMore(cfg, w, w', before, p);
    assert w.side + "" == w.side;
    assert Commas(dump, []) == "" by {
      NoCommas(dump);
    }
  }

  lemma NoCommas(dump: Dump)
    ensures Commas(dump, []) == ""
  {
  }

  /** After every run, of either output: the records and properties are those of the admitted pushes, in order, the
      size is what they were charged, and the window is that of their events. */
  lemma {:induction false} RunHolds(legacy: bool, dump: Dump, cfg: Config, ps: seq<Push>)
    ensures Holds(legacy, dump, cfg, Run(legacy, dump, cfg, ps), Admitted(legacy, dump, cfg, ps))
    decreases |ps|
  {
    hide Holds, Pushed, Accepts;
    if ps == [] {
      StartHolds(legacy, dump, cfg);
    } else {
      var n := |ps| - 1;
      RunHolds(legacy, dump, cfg, ps[..n]);
      var w, before := Run(legacy, dump, cfg, ps[..n]), Admitted(legacy, dump, cfg, ps[..n]);
      if Accepts(dump, cfg, w, ps[n]) {
        PushStep(legacy, dump, cfg, w, before, ps[n]);
      } else {
        Dropped(legacy, dump, cfg, w, ps[n]);
        assert before + [] == before;
        MissedHolds(legacy, dump, cfg, w, before);
      }
    }
  }

  lemma StartHolds(legacy: bool, dump: Dump, cfg: Config)
    ensures Holds(legacy, dump, cfg, Start(), [])
  {
  }

  lemma MissedHolds(legacy: bool, dump: Dump, cfg: Config, w: Writer, ps: seq<Push>)
    requires Holds(legacy, dump, cfg, w, ps)
    ensures Holds(legacy, dump, cfg, w.(missed := w.missed + 1), ps)
  {
  }

  /** Every push is admitted or counted as missed. */
  lemma {:induction false} MissedCount(legacy: bool, dump: Dump, cfg: Config, ps: seq<Push>)
    ensures Run(legacy, dump, cfg, ps).missed + |Admitted(legacy, dump, cfg, ps)| == |ps|
    decreases |ps|
  {
    hide Pushed, Accepts;
    if ps != [] {
      var n := |ps| - 1;
      MissedCount(legacy, dump, cfg, ps[..n]);
      var w := Run(legacy, dump, cfg, ps[..n]);
      if Accepts(dump, cfg, w, ps[n]) {
        MissedKept(legacy, dump, cfg, w, ps[n]);
      } else {
        Dropped(legacy, dump, cfg, w, ps[n]);
      }
    }
  }

  lemma MissedKept(legacy: bool, dump: Dump, cfg: Config, w: Writer, p: Push)
    requires Accepts(dump, cfg, w, p)
    ensures Pushed(legacy, dump, cfg, w, p).missed == w.missed
  {
    hide Commas, Length, PidObjects, TidObjects, Mapped;
  }

  // ---- what that says ----

  /** A push other than of properties is let in exactly when the event as it came, or the metadata, still fits. */
  lemma AdmittedIff(legacy: bool, dump: Dump, cfg: Config, ps: seq<Push>, p: Push)
    ensures var before := Admitted(legacy, dump, cfg, ps);
            Admitted(legacy, dump, cfg, ps + [p]) == before + (if
              || p.PushProps? || cfg.limit == 0
              || (var text := if p.PushMetadata? then dump(Metadata(p.text)) else dump(Cupti(p.event));
                  TotalCharge(legacy, dump, cfg, before) + |text| <= cfg.limit)
              then [p] else [])
  {
    hide Records, TotalCharge, Knows, WindowOf;
    assert (ps + [p])[..|ps|] == ps && (ps + [p])[|ps|] == p;
    RunHolds(legacy, dump, cfg, ps);
  }

  /** Without a limit everything is let in. */
  lemma {:induction false} AllAdmitted(legacy: bool, dump: Dump, cfg: Config, ps: seq<Push>)
    requires cfg.limit == 0
    ensures Admitted(legacy, dump, cfg, ps) == ps
  {
    hide Run;
    if ps != [] {
      var n := |ps| - 1;
      AllAdmitted(legacy, dump, cfg, ps[..n]);
      assert ps == ps[..n] + [ps[n]];
    }
  }

  /** How many records name a process of the host, or of the device, and how many a thread or a stream. */
  function Labels(rs: seq<Record>, pid: Usize, gpu: bool): nat {
    if rs == [] then 0
    else Labels(rs[..|rs| - 1], pid, gpu)
         + (var r := rs[|rs| - 1]; if r.ProcessLabels? && r.pid == pid && r.gpu == gpu then 1 else 0)
  }

  function Threads(rs: seq<Record>, tid: Usize, stream: bool): nat {
    if rs == [] then 0
    else Threads(rs[..|rs| - 1], tid, stream)
         + (var r := rs[|rs| - 1]; if r.ThreadName? && r.tid == tid && r.stream == stream then 1 else 0)
  }

  lemma {:induction false} CountsAppend(a: seq<Record>, b: seq<Record>, x: Usize, gpu: bool)
    ensures Labels(a + b, x, gpu) == Labels(a, x, gpu) + Labels(b, x, gpu)
    ensures Threads(a + b, x, gpu) == Threads(a, x, gpu) + Threads(b, x, gpu)
  {
    if b == [] {
      assert a + b == a;
    } else {
      assert (a + b)[..|a + b| - 1] == a + b[..|b| - 1];
      CountsAppend(a, b[..|b| - 1], x, gpu);
    }
  }

  /** Every process and every thread is introduced once if some admitted event has it, and not at all otherwise. */
  lemma {:induction false} IntroducedOnce(cfg: Config, ps: seq<Push>, x: Usize, gpu: bool)
    ensures Labels(Records(cfg, ps), x, gpu) == (if UsesPid(cfg, ps, gpu, x) then 1 else 0)
    ensures Threads(Records(cfg, ps), x, gpu) == (if UsesTid(cfg, ps, gpu, x) then 1 else 0)
  {
    hide UsesPid, UsesTid, Block;
    if ps == [] {
      NoUses(cfg, x, gpu);
    } else {
      var front, p := ps[..|ps| - 1], ps[|ps| - 1];
      IntroducedOnce(cfg, front, x, gpu);
      CountsAppend(Records(cfg, front), Block(cfg, front, p), x, gpu);
      BlockCounts(cfg, front, p, x, gpu);
      UsesMore(cfg, front, p, gpu, x);
      assert ps == front + [p];
    }
  }

  lemma NoUses(cfg: Config, x: Usize, gpu: bool)
    ensures !UsesPid(cfg, [], gpu, x) && !UsesTid(cfg, [], gpu, x)
  {
  }

  lemma BlockCounts(cfg: Config, before: seq<Push>, p: Push, x: Usize, gpu: bool)
    ensures Labels(Block(cfg, before, p), x, gpu) ==
      if IsEvent(p) && p.PushGpu? == gpu && PidOf(cfg, p) == x && !UsesPid(cfg, before, gpu, x) then 1 else 0
    ensures Threads(Block(cfg, before, p), x, gpu) ==
      if IsEvent(p) && p.PushGpu? == gpu && TidOf(cfg, p) == x && !UsesTid(cfg, before, gpu, x) then 1 else 0
  {
    hide UsesPid, UsesTid, Labels, Threads;
    if IsEvent(p) {
      CountsAppend(ProcessRecords(cfg, before, p) + ThreadRecords(cfg, before, p), EventRecords(cfg, p), x, gpu);
      CountsAppend(ProcessRecords(cfg, before, p), ThreadRecords(cfg, before, p), x, gpu);
      ProcessCounts(cfg, before, p, x, gpu);
      ThreadCounts(cfg, before, p, x, gpu);
      EventCounts(cfg, p, x, gpu);
    } else if p.PushMetadata? {
      OneCounts(Metadata(p.text), x, gpu);
    } else {
      NoCounts(x, gpu);
    }
  }

  lemma NoCounts(x: Usize, gpu: bool)
    ensures Labels([], x, gpu) == 0 == Threads([], x, gpu)
  {
  }

  lemma OneCounts(r: Record, x: Usize, gpu: bool)
    ensures Labels([r], x, gpu) == if r.ProcessLabels? && r.pid == x && r.gpu == gpu then 1 else 0
    ensures Threads([r], x, gpu) == if r.ThreadName? && r.tid == x && r.stream == gpu then 1 else 0
  {
    assert [r][..0] == [];
  }

  lemma TwoCounts(r: Record, s: Record, x: Usize, gpu: bool)
    ensures Labels([r, s], x, gpu) == Labels([r], x, gpu) + Labels([s], x, gpu)
    ensures Threads([r, s], x, gpu) == Threads([r], x, gpu) + Threads([s], x, gpu)
  {
    assert [r, s] == [r] + [s];
    CountsAppend([r], [s], x, gpu);
  }

  lemma ProcessCounts(cfg: Config, before: seq<Push>, p: Push, x: Usize, gpu: bool)
    requires IsEvent(p)
    ensures Labels(ProcessRecords(cfg, before, p), x, gpu) ==
      if p.PushGpu? == gpu && PidOf(cfg, p) == x && !UsesPid(cfg, before, gpu, x) then 1 else 0
    ensures Threads(ProcessRecords(cfg, before, p), x, gpu) == 0
  {
    hide UsesPid, Labels, Threads, PidOf;
    NoCounts(x, gpu);
    var rs := ProcessRecords(cfg, before, p);
    if rs != [] {
      assert rs == [rs[0], rs[1]] + [rs[2]];
      CountsAppend([rs[0], rs[1]], [rs[2]], x, gpu);
      TwoCounts(rs[0], rs[1], x, gpu);
      OneCounts(rs[0], x, gpu);
      OneCounts(rs[1], x, gpu);
      OneCounts(rs[2], x, gpu);
    }
  }

  lemma ThreadCounts(cfg: Config, before: seq<Push>, p: Push, x: Usize, gpu: bool)
    requires IsEvent(p)
    ensures Threads(ThreadRecords(cfg, before, p), x, gpu) ==
      if p.PushGpu? == gpu && TidOf(cfg, p) == x && !UsesTid(cfg, before, gpu, x) then 1 else 0
    ensures Labels(ThreadRecords(cfg, before, p), x, gpu) == 0
  {
    hide UsesTid, Labels, Threads, PidOf, TidOf;
    NoCounts(x, gpu);
    var rs := ThreadRecords(cfg, before, p);
    if rs != [] {
      TwoCounts(rs[0], rs[1], x, gpu);
      OneCounts(rs[0], x, gpu);
      OneCounts(rs[1], x, gpu);
    }
  }

  lemma EventCounts(cfg: Config, p: Push, x: Usize, gpu: bool)
    requires IsEvent(p)
    ensures Labels(EventRecords(cfg, p), x, gpu) == 0 == Threads(EventRecords(cfg, p), x, gpu)
  {
    hide Labels, Threads, PidOf, TidOf;
    var rs := EventRecords(cfg, p);
    TwoCounts(rs[0], rs[1], x, gpu);
    OneCounts(rs[0], x, gpu);
    OneCounts(rs[1], x, gpu);
  }

  /** Records, and properties, are separated by commas. */
  lemma CommaSeparated(dump: Dump, rs: seq<Record>, r: Record, texts: seq<string>, t: string)
    ensures Joined(dump, rs + [r]) == if rs == [] then dump(r) else Joined(dump, rs) + "," + dump(r)
    ensures JoinedTexts(texts + [t]) == if texts == [] then t else JoinedTexts(texts) + "," + t
  {
    assert (rs + [r])[..|rs|] == rs && (texts + [t])[..|texts|] == texts;
  }

  /** The file in full, from a fresh one and without a limit, whichever output writes it. */
  lemma FileOfRun(legacy: bool, dump: Dump, cfg: Config, ps: seq<Push>) returns (begin: real, end: real)
    requires cfg.limit == 0
    ensures WindowOf(ps, begin, end)
    ensures FileOf(legacy, dump, Run(legacy, dump, cfg, ps), "") ==
      "{\"schemaVersion\":1,\"distributedInfo\":{\"rank\":\"\"},\"deviceProperties\":["
      + JoinedTexts(Properties(ps)) + "],\"traceEvents\":["
      + Joined(dump, Records(cfg, ps) + [WindowStart(begin), WindowEnd(end)]) + "]}"
  {
    hide Run, FileOf, Joined, JoinedTexts, Records, WindowOf, Knows, Commas;
    var l := Run(true, dump, cfg, ps);
    RunHolds(true, dump, cfg, ps);
    AllAdmitted(true, dump, cfg, ps);
    StreamingIsLegacy(dump, cfg, ps);
    begin, end := l.begin, l.end;
  }

  // ---- constants ----

  /** The part kept back is the 72nd of the limit, rounded down. */
  lemma KeptBack(limit: nat)
    ensures var kept := limit - ReducedLimit(limit); 0 <= kept <= limit && 72 * kept <= limit < 72 * (kept + 1)
  {
  }

  /** The greatest double: 53 bits, all set, times two to the 971. */
  lemma MaxDouble()
    ensures F64_MAX == (0x1F_FFFF_FFFF_FFFF * Pow2(971)) as real
  {
    hide Pow2;
    Pow2Plus(53, 971);
    Pow2Of53();
    OneLess(Pow2(53), Pow2(971));
  }

  lemma OneLess(a: nat, b: nat)
    ensures a * b - b == (a - 1) * b
  {
  }

  lemma Pow2Of53()
    ensures Pow2(53) == 0x20_0000_0000_0000
  {
    assert Pow2(8) == 256 && Pow2(5) == 32 by {
      assert Pow2(4) == 16;
    }
    hide Pow2;
    Pow2Plus(8, 8);
    Pow2Plus(16, 16);
    Pow2Plus(32, 16);
    Pow2Plus(48, 5);
  }

  lemma {:induction false} Pow2Plus(m: nat, n: nat)
    ensures Pow2(m + n) == Pow2(m) * Pow2(n)
  {
    if m > 0 {
      Pow2Plus(m - 1, n);
      Doubled(Pow2(m - 1), Pow2(n));
    }
  }

  lemma Doubled(a: nat, b: nat)
    ensures 2 * (a * b) == (2 * a) * b
  {
  }
}
