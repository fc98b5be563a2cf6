// Writing a trace (agent/collection_framework/fifo/src/receiver.rs, `TracingInfo`): the legacy output keeps the
// whole document in memory, the streaming output appends records to a side buffer and splices it into the file.
module TraceWriter {
  import opened Wrappers

  type Usize = x: int | 0 <= x < 0x1_0000_0000_0000_0000

  type U32 = x: int | 0 <= x < 0x1_0000_0000

  const USIZE_MAX: Usize := 0xFFFF_FFFF_FFFF_FFFF

  function Pow2(n: nat): nat { if n == 0 then 1 else 2 * Pow2(n - 1) }

  /** The greatest finite double, where the window starts before any event narrows it. */
  const F64_MAX: real := (Pow2(1024) - Pow2(971)) as real

  /** An event as parsed: `rest` stands for the fields the writer does not look at. A missing time is not a number. */
  datatype Event = Event(pid: Option<Usize>, tid: Option<Usize>, ts: Option<real>, rest: string)

  /** The elements of `traceEvents`. */
  datatype Record =
    | Cupti(event: Event)
    | ProcessName(pid: Usize, ts: Option<real>, name: string)
    | ProcessLabels(pid: Usize, ts: Option<real>, gpu: bool)
    | ProcessSortIndex(pid: Usize, ts: Option<real>, index: Usize)
    | ThreadName(pid: Usize, tid: Usize, ts: Option<real>, stream: bool)
    | ThreadSortIndex(pid: Usize, tid: Usize, ts: Option<real>)
    | Flow(start: bool, ts: Option<real>, pid: Usize, tid: Usize, id: Usize)
    | Metadata(text: string)
    | WindowStart(begin: real)
    | WindowEnd(end: real)

  /** How one record prints. The writer never looks inside, so nothing is fixed but that it is a function. */
  type Dump = Record -> string

  datatype Config = Config(procName: string, limit: nat, pidMaps: Option<map<U32, U32>>)

  /** What the writer keeps. Of `json` and the side buffer each output uses one. */
  datatype Writer = Writer(
    begin: real, end: real,
    deviceProperties: seq<string>, traceEvents: seq<Record>, side: string,
    cpuPid: set<Usize>, cpuTid: set<Usize>, gpuPid: set<Usize>, gpuTid: set<Usize>,
    missed: nat, size: nat)

  /** The parser's four kinds of message. */
  datatype Push =
    | PushCpu(event: Event, correlationId: Usize, flowStart: bool)
    | PushGpu(event: Event, correlationId: Usize)
    | PushProps(text: string)
    | PushMetadata(text: string)

  // ---- printing ----

  /** Strings joined by commas. */
  function Joined(dump: Dump, rs: seq<Record>): string {
    if rs == [] then ""
    else if |rs| == 1 then dump(rs[0])
    else Joined(dump, rs[..|rs| - 1]) + "," + dump(rs[|rs| - 1])
  }

  /** `concat_strings!`: the records joined by commas, then a postfix. */
  function ConcatStrings(dump: Dump, rs: seq<Record>, postfix: string): string {
    Joined(dump, rs) + postfix
  }

  function JoinedTexts(texts: seq<string>): string {
    if texts == [] then ""
    else if |texts| == 1 then texts[0]
    else JoinedTexts(texts[..|texts| - 1]) + "," + texts[|texts| - 1]
  }

  const HEAD := "{\"schemaVersion\":1,\"distributedInfo\":{\"rank\":\"\"},\"deviceProperties\":["

  /** `json.dump()`, whose last field is the events. */
  function Document(dump: Dump, props: seq<string>, rs: seq<Record>): string {
    HEAD + JoinedTexts(props) + "],\"traceEvents\":[" + Joined(dump, rs) + "]}"
  }

  // ---- one push ----

  /** Each record followed by a comma, as the side buffer holds them. */
  function Commas(dump: Dump, rs: seq<Record>): string {
    if rs == [] then "" else Commas(dump, rs[..|rs| - 1]) + dump(rs[|rs| - 1]) + ","
  }

  function Length(dump: Dump, rs: seq<Record>): nat {
    if rs == [] then 0 else Length(dump, rs[..|rs| - 1]) + |dump(rs[|rs| - 1])|
  }

  function Emit(legacy: bool, dump: Dump, w: Writer, rs: seq<Record>): Writer {
    if legacy then w.(traceEvents := w.traceEvents + rs)
    else w.(side := w.side + Commas(dump, rs))
  }

  /** The records that introduce a process or a thread: only the legacy output charges for them. */
  function EmitIntro(legacy: bool, dump: Dump, w: Writer, rs: seq<Record>): Writer {
    Emit(legacy, dump, w.(size := w.size + if legacy then Length(dump, rs) else 0), rs)
  }

  predicate Admits(cfg: Config, w: Writer, len: nat) {
    !(cfg.limit > 0 && w.size + len > cfg.limit)
  }

  /** The identifier cut to 32 bits, as seen outside the container when it is mapped. */
  function Mapped(cfg: Config, id: Option<Usize>): Usize {
    var low: U32 := Plain(id) % 0x1_0000_0000;
    if cfg.pidMaps.Some? && low in cfg.pidMaps.value then cfg.pidMaps.value[low] else low
  }

  function Plain(id: Option<Usize>): Usize { if id.None? then 0 else id.value }

  function Boundary(w: Writer, ts: Option<real>): Writer {
    if ts.None? then w
    else w.(
      begin := if ts.value < w.begin then ts.value else w.begin,
      end := if ts.value > w.end then ts.value else w.end)
  }

  function PidObjects(cfg: Config, pid: Usize, ts: Option<real>, gpu: bool): seq<Record> {
    [ProcessName(pid, ts, cfg.procName), ProcessLabels(pid, ts, gpu),
     ProcessSortIndex(pid, ts, if gpu then USIZE_MAX - pid else pid)]
  }

  function TidObjects(pid: Usize, tid: Usize, ts: Option<real>, gpu: bool): seq<Record> {
    [ThreadName(pid, tid, ts, gpu), ThreadSortIndex(pid, tid, ts)]
  }

  function UpdateCpuPid(legacy: bool, dump: Dump, cfg: Config, w: Writer, pid: Usize, ts: Option<real>): Writer {
    if pid in w.cpuPid then w
    else EmitIntro(legacy, dump, w.(cpuPid := w.cpuPid + {pid}), PidObjects(cfg, pid, ts, false))
  }

  function UpdateCpuTid(legacy: bool, dump: Dump, w: Writer, tid: Usize, pid: Usize, ts: Option<real>): Writer {
    if tid in w.cpuTid then w
    else EmitIntro(legacy, dump, w.(cpuTid := w.cpuTid + {tid}), TidObjects(pid, tid, ts, false))
  }

  function UpdateGpuPid(legacy: bool, dump: Dump, cfg: Config, w: Writer, pid: Usize, ts: Option<real>): Writer {
    if pid in w.gpuPid then w
    else EmitIntro(legacy, dump, w.(gpuPid := w.gpuPid + {pid}), PidObjects(cfg, pid, ts, true))
  }

  function UpdateGpuTid(legacy: bool, dump: Dump, w: Writer, tid: Usize, pid: Usize, ts: Option<real>): Writer {
    if tid in w.gpuTid then w
    else EmitIntro(legacy, dump, w.(gpuTid := w.gpuTid + {tid}), TidObjects(pid, tid, ts, true))
  }

  /** The length a push is admitted by: of its event before identifiers are mapped. */
  function LengthOf(dump: Dump, p: Push): nat {
    match p
    case PushCpu(e, _, _) => |dump(Cupti(e))|
    case PushGpu(e, _) => |dump(Cupti(e))|
    case PushProps(_) => 0
    case PushMetadata(text) => |dump(Metadata(text))|
  }

  /** The records of an admitted CPU event. */
  function CpuRecords(cfg: Config, e: Event, id: Usize, flowStart: bool): seq<Record> {
    var (pid, tid) := (Mapped(cfg, e.pid), Mapped(cfg, e.tid));
    [Cupti(e.(pid := Some(pid), tid := Some(tid))), Flow(flowStart, e.ts, pid, tid, id)]
  }

  function GpuRecords(e: Event, id: Usize): seq<Record> {
    [Cupti(e), Flow(false, e.ts, Plain(e.pid), Plain(e.tid), id)]
  }

  /** The side effects of a push that is let in, before its own records are written. */
  function Introduced(legacy: bool, dump: Dump, cfg: Config, w: Writer, p: Push): Writer {
    match p
    case PushCpu(e, _, _) =>
      var (pid, tid) := (Mapped(cfg, e.pid), Mapped(cfg, e.tid));
      UpdateCpuTid(legacy, dump, UpdateCpuPid(legacy, dump, cfg, Boundary(w, e.ts), pid, e.ts), tid, pid, e.ts)
    case PushGpu(e, _) =>
      var (pid, tid) := (Plain(e.pid), Plain(e.tid));
      UpdateGpuTid(legacy, dump, UpdateGpuPid(legacy, dump, cfg, Boundary(w, e.ts), pid, e.ts), tid, pid, e.ts)
    case PushProps(text) => w.(deviceProperties := w.deviceProperties + [text])
    case PushMetadata(_) => w
  }

  function OwnRecords(cfg: Config, p: Push): seq<Record> {
    match p
    case PushCpu(e, id, flowStart) => CpuRecords(cfg, e, id, flowStart)
    case PushGpu(e, id) => GpuRecords(e, id)
    case PushProps(_) => []
    case PushMetadata(text) => [Metadata(text)]
  }

  /** What an admitted push adds to the size: metadata is not counted. */
  function Charge(dump: Dump, cfg: Config, p: Push): nat {
    if p.PushCpu? || p.PushGpu? then LengthOf(dump, p) + |dump(OwnRecords(cfg, p)[1])| else 0
  }

  predicate Accepts(dump: Dump, cfg: Config, w: Writer, p: Push) {
    p.PushProps? || Admits(cfg, w, LengthOf(dump, p))
  }

  function Pushed(legacy: bool, dump: Dump, cfg: Config, w: Writer, p: Push): Writer {
    if !Accepts(dump, cfg, w, p) then w.(missed := w.missed + 1)
    else
      var w1 := Introduced(legacy, dump, cfg, w, p);
      Emit(legacy, dump, w1.(size := w1.size + Charge(dump, cfg, p)), OwnRecords(cfg, p))
  }

  function Start(): Writer {
    Writer(F64_MAX, 0.0, [], [], "", {}, {}, {}, {}, 0, 0)
  }

  /** The constructor keeps back a 72nd of the limit it is given. */
  function ReducedLimit(limit: nat): nat { limit - limit / 72 }

  function Run(legacy: bool, dump: Dump, cfg: Config, ps: seq<Push>): Writer {
    if ps == [] then Start() else Pushed(legacy, dump, cfg, Run(legacy, dump, cfg, ps[..|ps| - 1]), ps[|ps| - 1])
  }

  // ---- the file ----

  /** Writing `data` at `pos` over what a file holds: neither output truncates it. */
  function Overwrite(file: string, pos: nat, data: string): string
    requires pos <= |file|
  {
    file[..pos] + data + if pos + |data| < |file| then file[pos + |data|..] else ""
  }

  function Window(w: Writer): seq<Record> { [WindowStart(w.begin), WindowEnd(w.end)] }

  lemma DocumentLength(dump: Dump, props: seq<string>, rs: seq<Record>)
    ensures |Document(dump, props, rs)| >= 2
  {
  }

  /** The file after `write_file`, given what it held before. */
  function FileOf(legacy: bool, dump: Dump, w: Writer, before: string): string {
    if legacy then Overwrite(before, 0, Document(dump, w.deviceProperties, w.traceEvents + Window(w)))
    else
      var file := Overwrite(before, 0, Document(dump, w.deviceProperties, w.traceEvents));
      DocumentLength(dump, w.deviceProperties, w.traceEvents);
      Overwrite(file, |file| - 2, w.side + ConcatStrings(dump, Window(w), "]}"))
  }

  // ---- the two outputs agree ----

  /** The streaming writer's state, `s`, as against the legacy writer's, `l`: the same records, held as text. */
  predicate Refines(dump: Dump, s: Writer, l: Writer) {
    && s.begin == l.begin && s.end == l.end
    && s.deviceProperties == l.deviceProperties
    && s.cpuPid == l.cpuPid && s.cpuTid == l.cpuTid && s.gpuPid == l.gpuPid && s.gpuTid == l.gpuTid
    && s.traceEvents == [] && l.side == ""
    && s.side == Commas(dump, l.traceEvents)
  }

  lemma {:induction false} CommasAppend(dump: Dump, a: seq<Record>, b: seq<Record>)
    ensures Commas(dump, a + b) == Commas(dump, a) + Commas(dump, b)
  {
    if b == [] {
      assert a + b == a;
    } else {
      assert (a + b)[..|a + b| - 1] == a + b[..|b| - 1];
      CommasAppend(dump, a, b[..|b| - 1]);
    }
  }

  /** Records each followed by a comma, then two more joined: the whole joined. */
  lemma {:induction false} CommasThenJoined(dump: Dump, rs: seq<Record>, last: seq<Record>)
    requires |last| == 2
    ensures Commas(dump, rs) + Joined(dump, last) == Joined(dump, rs + last)
  {
    var all := rs + last;
    assert last[..1] == [last[0]] && all[..|rs| + 1] == rs + [last[0]];
    assert Joined(dump, last) == dump(last[0]) + "," + dump(last[1]);
    CommasThenOne(dump, rs, last[0]);
    assert Joined(dump, all) == Joined(dump, rs + [last[0]]) + "," + dump(last[1]);
  }

  lemma {:induction false} CommasThenOne(dump: Dump, rs: seq<Record>, r: Record)
    ensures Joined(dump, rs + [r]) == Commas(dump, rs) + dump(r)
  {
    var n := |rs| - 1;
    assert (rs + [r])[..|rs|] == rs;
    if rs != [] {
      CommasThenOne(dump, rs[..n], rs[n]);
      assert rs == rs[..n] + [rs[n]];
    }
  }

  lemma EmitRefines(dump: Dump, s: Writer, l: Writer, rs: seq<Record>)
    requires Refines(dump, s, l)
    ensures Refines(dump, Emit(false, dump, s, rs), Emit(true, dump, l, rs))
    ensures Refines(dump, EmitIntro(false, dump, s, rs), EmitIntro(true, dump, l, rs))
  {
    CommasAppend(dump, l.traceEvents, rs);
  }

  lemma ProcessRefines(dump: Dump, cfg: Config, s: Writer, l: Writer, pid: Usize, ts: Option<real>)
    requires Refines(dump, s, l)
    ensures Refines(dump, UpdateCpuPid(false, dump, cfg, s, pid, ts), UpdateCpuPid(true, dump, cfg, l, pid, ts))
    ensures Refines(dump, UpdateGpuPid(false, dump, cfg, s, pid, ts), UpdateGpuPid(true, dump, cfg, l, pid, ts))
  {
    hide Commas, EmitIntro, PidObjects;
    EmitRefines(dump, s.(cpuPid := s.cpuPid + {pid}), l.(cpuPid := l.cpuPid + {pid}), PidObjects(cfg, pid, ts, false));
    EmitRefines(dump, s.(gpuPid := s.gpuPid + {pid}), l.(gpuPid := l.gpuPid + {pid}), PidObjects(cfg, pid, ts, true));
  }

  lemma ThreadRefines(dump: Dump, s: Writer, l: Writer, tid: Usize, pid: Usize, ts: Option<real>)
    requires Refines(dump, s, l)
    ensures Refines(dump, UpdateCpuTid(false, dump, s, tid, pid, ts), UpdateCpuTid(true, dump, l, tid, pid, ts))
    ensures Refines(dump, UpdateGpuTid(false, dump, s, tid, pid, ts), UpdateGpuTid(true, dump, l, tid, pid, ts))
  {
    hide Commas, EmitIntro, TidObjects;
    EmitRefines(dump, s.(cpuTid := s.cpuTid + {tid}), l.(cpuTid := l.cpuTid + {tid}), TidObjects(pid, tid, ts, false));
    EmitRefines(dump, s.(gpuTid := s.gpuTid + {tid}), l.(gpuTid := l.gpuTid + {tid}), TidObjects(pid, tid, ts, true));
  }

  lemma BoundaryRefines(dump: Dump, s: Writer, l: Writer, ts: Option<real>)
    requires Refines(dump, s, l)
    ensures Refines(dump, Boundary(s, ts), Boundary(l, ts))
  {
    hide Commas;
  }

  lemma IntroducedRefines(dump: Dump, cfg: Config, s: Writer, l: Writer, p: Push)
    requires Refines(dump, s, l)
    ensures Refines(dump, Introduced(false, dump, cfg, s, p), Introduced(true, dump, cfg, l, p))
  {
    hide Commas, Boundary, UpdateCpuPid, UpdateCpuTid, UpdateGpuPid, UpdateGpuTid, Mapped;
    match p {
      case PushCpu(e, _, _) =>
        var (pid, tid) := (Mapped(cfg, e.pid), Mapped(cfg, e.tid));
        BoundaryRefines(dump, s, l, e.ts);
        ProcessRefines(dump, cfg, Boundary(s, e.ts), Boundary(l, e.ts), pid, e.ts);
        ThreadRefines(dump, UpdateCpuPid(false, dump, cfg, Boundary(s, e.ts), pid, e.ts),
          UpdateCpuPid(true, dump, cfg, Boundary(l, e.ts), pid, e.ts), tid, pid, e.ts);
      case PushGpu(e, _) =>
        var (pid, tid) := (Plain(e.pid), Plain(e.tid));
        BoundaryRefines(dump, s, l, e.ts);
        ProcessRefines(dump, cfg, Boundary(s, e.ts), Boundary(l, e.ts), pid, e.ts);
        ThreadRefines(dump, UpdateGpuPid(false, dump, cfg, Boundary(s, e.ts), pid, e.ts),
          UpdateGpuPid(true, dump, cfg, Boundary(l, e.ts), pid, e.ts), tid, pid, e.ts);
      case PushProps(_) =>
      case PushMetadata(_) =>
    }
  }

  /** A push that is let in, other than of properties, writes at least one record. */
  lemma PushGrows(legacy: bool, dump: Dump, cfg: Config, w: Writer, p: Push)
    requires Accepts(dump, cfg, w, p) && !p.PushProps?
    ensures var w' := Pushed(legacy, dump, cfg, w, p);
            if legacy then |Commas(dump, w'.traceEvents)| > |Commas(dump, w.traceEvents)| else |w'.side| > |w.side|
  {
    hide Commas, Accepts, OwnRecords, Charge;
    var w1 := Introduced(legacy, dump, cfg, w, p);
    var own := OwnRecords(cfg, p);
    IntroducedKeeps(legacy, dump, cfg, w, p);
    SomeRecord(dump, cfg, p);
    if legacy {
      CommasAppend(dump, w.traceEvents, w1.traceEvents[|w.traceEvents|..]);
      assert w.traceEvents + w1.traceEvents[|w.traceEvents|..] == w1.traceEvents;
      CommasAppend(dump, w1.traceEvents, own);
    }
  }

  lemma SomeRecord(dump: Dump, cfg: Config, p: Push)
    requires !p.PushProps?
    ensures |Commas(dump, OwnRecords(cfg, p))| > 0
  {
  }

  lemma IntroducedKeeps(legacy: bool, dump: Dump, cfg: Config, w: Writer, p: Push)
    ensures w.traceEvents <= Introduced(legacy, dump, cfg, w, p).traceEvents
    ensures |w.side| <= |Introduced(legacy, dump, cfg, w, p).side|
  {
    hide Commas, PidObjects, TidObjects;
  }

  /** A dropped push leaves the trace as it was. */
  lemma Dropped(legacy: bool, dump: Dump, cfg: Config, w: Writer, p: Push)
    requires !Accepts(dump, cfg, w, p)
    ensures Pushed(legacy, dump, cfg, w, p) == w.(missed := w.missed + 1)
  {
  }

  lemma AcceptedRefines(dump: Dump, cfg: Config, s: Writer, l: Writer, p: Push)
    requires Refines(dump, s, l)
    requires Accepts(dump, cfg, s, p) && Accepts(dump, cfg, l, p)
    ensures Refines(dump, Pushed(false, dump, cfg, s, p), Pushed(true, dump, cfg, l, p))
  {
    hide Commas, Introduced, OwnRecords, Charge, Accepts, Emit;
    IntroducedRefines(dump, cfg, s, l, p);
    var s1, l1 := Introduced(false, dump, cfg, s, p), Introduced(true, dump, cfg, l, p);
    EmitRefines(dump, s1.(size := s1.size + Charge(dump, cfg, p)), l1.(size := l1.size + Charge(dump, cfg, p)),
      OwnRecords(cfg, p));
  }

  /** A push keeps the two outputs together exactly when both let it in or both drop it. */
  lemma PushRefinesIff(dump: Dump, cfg: Config, s: Writer, l: Writer, p: Push)
    requires Refines(dump, s, l)
    ensures Refines(dump, Pushed(false, dump, cfg, s, p), Pushed(true, dump, cfg, l, p)) <==>
      (Accepts(dump, cfg, s, p) <==> Accepts(dump, cfg, l, p))
  {
    hide Commas, Pushed;
    if Accepts(dump, cfg, s, p) && Accepts(dump, cfg, l, p) {
      AcceptedRefines(dump, cfg, s, l, p);
    } else if Accepts(dump, cfg, s, p) {
      PushGrows(false, dump, cfg, s, p);
      Dropped(true, dump, cfg, l, p);
    } else if Accepts(dump, cfg, l, p) {
      PushGrows(true, dump, cfg, l, p);
      Dropped(false, dump, cfg, s, p);
    } else {
      Dropped(true, dump, cfg, l, p);
      Dropped(false, dump, cfg, s, p);
    }
  }

  /** The run over the first `n` pushes. */
  function RunTo(legacy: bool, dump: Dump, cfg: Config, ps: seq<Push>, n: nat): Writer
    requires n <= |ps|
  {
    Run(legacy, dump, cfg, ps[..n])
  }

  predicate Together(dump: Dump, cfg: Config, ps: seq<Push>, n: nat)
    requires n <= |ps|
  {
    Refines(dump, RunTo(false, dump, cfg, ps, n), RunTo(true, dump, cfg, ps, n))
  }

  /** Both outputs let the push in, or both drop it. */
  predicate SameAdmission(dump: Dump, cfg: Config, ps: seq<Push>, n: nat)
    requires n < |ps|
  {
    Accepts(dump, cfg, RunTo(false, dump, cfg, ps, n), ps[n]) <==>
      Accepts(dump, cfg, RunTo(true, dump, cfg, ps, n), ps[n])
  }

  lemma RunStep(legacy: bool, dump: Dump, cfg: Config, ps: seq<Push>, n: nat)
    requires n < |ps|
    ensures RunTo(legacy, dump, cfg, ps, n + 1) == Pushed(legacy, dump, cfg, RunTo(legacy, dump, cfg, ps, n), ps[n])
  {
    assert ps[..n + 1][..n] == ps[..n];
  }

  lemma StepTogetherIff(dump: Dump, cfg: Config, ps: seq<Push>, n: nat)
    requires n < |ps| && Together(dump, cfg, ps, n)
    ensures Together(dump, cfg, ps, n + 1) <==> SameAdmission(dump, cfg, ps, n)
  {
    hide Run, Pushed, Refines, Accepts;
    RunStep(false, dump, cfg, ps, n);
    RunStep(true, dump, cfg, ps, n);
    PushRefinesIff(dump, cfg, RunTo(false, dump, cfg, ps, n), RunTo(true, dump, cfg, ps, n), ps[n]);
  }

  lemma {:induction false} SameAdmissionsTogether(dump: Dump, cfg: Config, ps: seq<Push>, n: nat)
    requires n <= |ps| && forall k :: 0 <= k < n ==> SameAdmission(dump, cfg, ps, k)
    ensures Together(dump, cfg, ps, n)
  {
    hide Pushed, SameAdmission;
    if n > 0 {
      SameAdmissionsTogether(dump, cfg, ps, n - 1);
      StepTogetherIff(dump, cfg, ps, n - 1);
    }
  }

  /** Over a whole run: the outputs agree after every push exactly when they let in the same pushes. */
  lemma RunsTogetherIff(dump: Dump, cfg: Config, ps: seq<Push>)
    ensures (forall n :: 0 <= n <= |ps| ==> Together(dump, cfg, ps, n)) <==>
            (forall n :: 0 <= n < |ps| ==> SameAdmission(dump, cfg, ps, n))
  {
    hide Together, SameAdmission;
    if forall n :: 0 <= n < |ps| ==> SameAdmission(dump, cfg, ps, n) {
      forall n | 0 <= n <= |ps|
        ensures Together(dump, cfg, ps, n)
      {
        SameAdmissionsTogether(dump, cfg, ps, n);
      }
    }
    if forall n :: 0 <= n <= |ps| ==> Together(dump, cfg, ps, n) {
      forall n | 0 <= n < |ps|
        ensures SameAdmission(dump, cfg, ps, n)
      {
        StepTogetherIff(dump, cfg, ps, n);
        assert Together(dump, cfg, ps, n + 1);
      }
    }
  }

  // ---- how far the sizes drift apart ----

  /** The records that introduce a process or a thread. */
  predicate Introduces(r: Record) {
    r.ProcessName? || r.ProcessLabels? || r.ProcessSortIndex? || r.ThreadName? || r.ThreadSortIndex?
  }

  function IntroLength(dump: Dump, rs: seq<Record>): nat {
    if rs == [] then 0
    else IntroLength(dump, rs[..|rs| - 1]) + if Introduces(rs[|rs| - 1]) then |dump(rs[|rs| - 1])| else 0
  }

  /** The legacy size is the streaming size and the length of the introducing records. */
  predicate Drifted(dump: Dump, s: Writer, l: Writer) {
    l.size == s.size + IntroLength(dump, l.traceEvents)
  }

  lemma {:induction false} IntroLengthAppend(dump: Dump, a: seq<Record>, b: seq<Record>)
    ensures IntroLength(dump, a + b) == IntroLength(dump, a) + IntroLength(dump, b)
  {
    if b == [] {
      assert a + b == a;
    } else {
      assert (a + b)[..|a + b| - 1] == a + b[..|b| - 1];
      IntroLengthAppend(dump, a, b[..|b| - 1]);
    }
  }

  lemma {:induction false} IntroLengthIs(dump: Dump, rs: seq<Record>)
    ensures (forall i :: 0 <= i < |rs| ==> Introduces(rs[i])) ==> IntroLength(dump, rs) == Length(dump, rs)
    ensures (forall i :: 0 <= i < |rs| ==> !Introduces(rs[i])) ==> IntroLength(dump, rs) == 0
  {
    if rs != [] {
      IntroLengthIs(dump, rs[..|rs| - 1]);
    }
  }

  lemma EmitDrifts(dump: Dump, s: Writer, l: Writer, rs: seq<Record>)
    requires Drifted(dump, s, l)
    ensures (forall i :: 0 <= i < |rs| ==> Introduces(rs[i])) ==>
      Drifted(dump, EmitIntro(false, dump, s, rs), EmitIntro(true, dump, l, rs))
    ensures (forall i :: 0 <= i < |rs| ==> !Introduces(rs[i])) ==>
      Drifted(dump, Emit(false, dump, s, rs), Emit(true, dump, l, rs))
  {
    IntroLengthAppend(dump, l.traceEvents, rs);
    IntroLengthIs(dump, rs);
  }

  lemma ProcessDrifts(dump: Dump, cfg: Config, s: Writer, l: Writer, pid: Usize, ts: Option<real>)
    requires Refines(dump, s, l) && Drifted(dump, s, l)
    ensures Drifted(dump, UpdateCpuPid(false, dump, cfg, s, pid, ts), UpdateCpuPid(true, dump, cfg, l, pid, ts))
    ensures Drifted(dump, UpdateGpuPid(false, dump, cfg, s, pid, ts), UpdateGpuPid(true, dump, cfg, l, pid, ts))
  {
    hide Commas, EmitIntro, IntroLength;
    EmitDrifts(dump, s.(cpuPid := s.cpuPid + {pid}), l.(cpuPid := l.cpuPid + {pid}), PidObjects(cfg, pid, ts, false));
    EmitDrifts(dump, s.(gpuPid := s.gpuPid + {pid}), l.(gpuPid := l.gpuPid + {pid}), PidObjects(cfg, pid, ts, true));
  }

  lemma ThreadDrifts(dump: Dump, s: Writer, l: Writer, tid: Usize, pid: Usize, ts: Option<real>)
    requires Refines(dump, s, l) && Drifted(dump, s, l)
    ensures Drifted(dump, UpdateCpuTid(false, dump, s, tid, pid, ts), UpdateCpuTid(true, dump, l, tid, pid, ts))
    ensures Drifted(dump, UpdateGpuTid(false, dump, s, tid, pid, ts), UpdateGpuTid(true, dump, l, tid, pid, ts))
  {
    hide Commas, EmitIntro, IntroLength;
    EmitDrifts(dump, s.(cpuTid := s.cpuTid + {tid}), l.(cpuTid := l.cpuTid + {tid}), TidObjects(pid, tid, ts, false));
    EmitDrifts(dump, s.(gpuTid := s.gpuTid + {tid}), l.(gpuTid := l.gpuTid + {tid}), TidObjects(pid, tid, ts, true));
  }

  lemma BoundaryDrifts(dump: Dump, s: Writer, l: Writer, ts: Option<real>)
    requires Drifted(dump, s, l)
    ensures Drifted(dump, Boundary(s, ts), Boundary(l, ts))
  {
    hide IntroLength;
  }

  lemma IntroducedDrifts(dump: Dump, cfg: Config, s: Writer, l: Writer, p: Push)
    requires Refines(dump, s, l) && Drifted(dump, s, l)
    ensures Drifted(dump, Introduced(false, dump, cfg, s, p), Introduced(true, dump, cfg, l, p))
  {
    hide Refines, IntroLength, Boundary, UpdateCpuPid, UpdateCpuTid, UpdateGpuPid, UpdateGpuTid, Mapped;
    match p {
      case PushCpu(e, _, _) =>
        var (pid, tid) := (Mapped(cfg, e.pid), Mapped(cfg, e.tid));
        BoundaryRefines(dump, s, l, e.ts);
        BoundaryDrifts(dump, s, l, e.ts);
        ProcessRefines(dump, cfg, Boundary(s, e.ts), Boundary(l, e.ts), pid, e.ts);
        ProcessDrifts(dump, cfg, Boundary(s, e.ts), Boundary(l, e.ts), pid, e.ts);
        ThreadDrifts(dump, UpdateCpuPid(false, dump, cfg, Boundary(s, e.ts), pid, e.ts),
          UpdateCpuPid(true, dump, cfg, Boundary(l, e.ts), pid, e.ts), tid, pid, e.ts);
      case PushGpu(e, _) =>
        var (pid, tid) := (Plain(e.pid), Plain(e.tid));
        BoundaryRefines(dump, s, l, e.ts);
        BoundaryDrifts(dump, s, l, e.ts);
        ProcessRefines(dump, cfg, Boundary(s, e.ts), Boundary(l, e.ts), pid, e.ts);
        ProcessDrifts(dump, cfg, Boundary(s, e.ts), Boundary(l, e.ts), pid, e.ts);
        ThreadDrifts(dump, UpdateGpuPid(false, dump, cfg, Boundary(s, e.ts), pid, e.ts),
          UpdateGpuPid(true, dump, cfg, Boundary(l, e.ts), pid, e.ts), tid, pid, e.ts);
      case PushProps(_) =>
      case PushMetadata(_) =>
    }
  }

  lemma PushDrifts(dump: Dump, cfg: Config, s: Writer, l: Writer, p: Push)
    requires Refines(dump, s, l) && Drifted(dump, s, l)
    requires Accepts(dump, cfg, s, p) <==> Accepts(dump, cfg, l, p)
    ensures Drifted(dump, Pushed(false, dump, cfg, s, p), Pushed(true, dump, cfg, l, p))
  {
    hide Commas, Introduced, OwnRecords, Charge, Accepts, Emit, Refines, IntroLength;
    if Accepts(dump, cfg, s, p) {
      IntroducedDrifts(dump, cfg, s, l, p);
      var s1, l1 := Introduced(false, dump, cfg, s, p), Introduced(true, dump, cfg, l, p);
      OwnIntroduceNothing(cfg, p);
      EmitDrifts(dump, s1.(size := s1.size + Charge(dump, cfg, p)), l1.(size := l1.size + Charge(dump, cfg, p)),
        OwnRecords(cfg, p));
    } else {
      Dropped(true, dump, cfg, l, p);
      Dropped(false, dump, cfg, s, p);
    }
  }

  lemma OwnIntroduceNothing(cfg: Config, p: Push)
    ensures forall i :: 0 <= i < |OwnRecords(cfg, p)| ==> !Introduces(OwnRecords(cfg, p)[i])
  {
  }

  lemma {:induction false} RunDrifts(dump: Dump, cfg: Config, ps: seq<Push>, n: nat)
    requires n <= |ps| && forall k :: 0 <= k < n ==> SameAdmission(dump, cfg, ps, k)
    ensures Drifted(dump, RunTo(false, dump, cfg, ps, n), RunTo(true, dump, cfg, ps, n))
  {
    hide Pushed, Accepts, Run;
    if n == 0 {
      StartDrifted(dump, cfg);
    } else {
      RunDrifts(dump, cfg, ps, n - 1);
      SameAdmissionsTogether(dump, cfg, ps, n - 1);
      RunStep(false, dump, cfg, ps, n - 1);
      RunStep(true, dump, cfg, ps, n - 1);
      assert SameAdmission(dump, cfg, ps, n - 1);
      PushDrifts(dump, cfg, RunTo(false, dump, cfg, ps, n - 1), RunTo(true, dump, cfg, ps, n - 1), ps[n - 1]);
    }
  }

  lemma StartDrifted(dump: Dump, cfg: Config)
    ensures Drifted(dump, Run(false, dump, cfg, []), Run(true, dump, cfg, []))
  {
  }

  /** The limit has room for the push without the introducing records written so far, and not with them. */
  predicate InWindow(dump: Dump, cfg: Config, ps: seq<Push>, n: nat)
    requires n < |ps|
  {
    var s, l := RunTo(false, dump, cfg, ps, n), RunTo(true, dump, cfg, ps, n);
    var needed := s.size + LengthOf(dump, ps[n]);
    !ps[n].PushProps? && cfg.limit > 0 && needed <= cfg.limit < needed + IntroLength(dump, l.traceEvents)
  }

  lemma PartsIff(dump: Dump, cfg: Config, ps: seq<Push>, n: nat)
    requires n < |ps| && forall k :: 0 <= k < n ==> SameAdmission(dump, cfg, ps, k)
    ensures !SameAdmission(dump, cfg, ps, n) <==> InWindow(dump, cfg, ps, n)
  {
    hide Run, IntroLength, LengthOf;
    RunDrifts(dump, cfg, ps, n);
  }

  lemma {:induction false} NoWindowSameAdmission(dump: Dump, cfg: Config, ps: seq<Push>, n: nat)
    requires n <= |ps| && forall k :: 0 <= k < n ==> !InWindow(dump, cfg, ps, k)
    ensures forall k :: 0 <= k < n ==> SameAdmission(dump, cfg, ps, k)
  {
    hide InWindow, SameAdmission;
    if n > 0 {
      NoWindowSameAdmission(dump, cfg, ps, n - 1);
      PartsIff(dump, cfg, ps, n - 1);
    }
  }

  /** Over a whole run: the outputs agree after every push if and only if no push finds room only without the
      introducing records; the first that does is the first on which they part. */
  lemma RunsAgreeIff(dump: Dump, cfg: Config, ps: seq<Push>)
    ensures (forall n :: 0 <= n <= |ps| ==> Together(dump, cfg, ps, n)) <==>
            (forall n :: 0 <= n < |ps| ==> !InWindow(dump, cfg, ps, n))
  {
    hide Together, SameAdmission, InWindow;
    RunsTogetherIff(dump, cfg, ps);
    if forall n :: 0 <= n < |ps| ==> !InWindow(dump, cfg, ps, n) {
      NoWindowSameAdmission(dump, cfg, ps, |ps|);
    }
    if forall n :: 0 <= n < |ps| ==> SameAdmission(dump, cfg, ps, n) {
      forall n | 0 <= n < |ps|
        ensures !InWindow(dump, cfg, ps, n)
      {
        PartsIff(dump, cfg, ps, n);
      }
    }
  }

  // ---- the files agree ----

  /** The document up to and including the bracket that opens the events. */
  function Opening(props: seq<string>): string {
    HEAD + JoinedTexts(props) + "],\"traceEvents\":["
  }

  lemma LegacyDocument(dump: Dump, w: Writer)
    ensures Document(dump, w.deviceProperties, w.traceEvents + Window(w)) ==
      Opening(w.deviceProperties) + Commas(dump, w.traceEvents) + Joined(dump, Window(w)) + "]}"
  {
    hide Joined, Commas, JoinedTexts;
    CommasThenJoined(dump, w.traceEvents, Window(w));
  }

  /** What the streaming output leaves: the spliced document when the file was no longer than the bare document,
      and otherwise the same tail after all but two characters of the longer file. */
  lemma StreamedFile(dump: Dump, w: Writer, before: string)
    requires w.traceEvents == []
    ensures var bare := Opening(w.deviceProperties) + "]}";
            var tail := w.side + Joined(dump, Window(w)) + "]}";
            && bare == Document(dump, w.deviceProperties, [])
            && FileOf(false, dump, w, before) ==
               if |before| <= |bare| then Opening(w.deviceProperties) + tail
               else (bare + before[|bare|..])[..|before| - 2] + tail
  {
    hide Joined, Document, Opening, Overwrite, ConcatStrings;
    var opening := Opening(w.deviceProperties);
    var tail := w.side + Joined(dump, Window(w)) + "]}";
    BareDocument(dump, w.deviceProperties);
    Spliced(opening, tail, before);
    TailIs(dump, w);
  }

  lemma TailIs(dump: Dump, w: Writer)
    ensures w.side + ConcatStrings(dump, Window(w), "]}") == w.side + Joined(dump, Window(w)) + "]}"
  {
    hide Joined, Window;
  }

  lemma BareDocument(dump: Dump, props: seq<string>)
    ensures Document(dump, props, []) == Opening(props) + "]}"
  {
    hide Joined, JoinedTexts;
    NothingJoined(dump);
    assert Opening(props) + "" == Opening(props);
  }

  lemma NothingJoined(dump: Dump)
    ensures Joined(dump, []) == ""
  {
  }

  lemma Spliced(opening: string, tail: string, before: string)
    requires |tail| >= 2
    ensures var bare := opening + "]}";
            var file := Overwrite(before, 0, bare);
            && |file| >= 2
            && Overwrite(file, |file| - 2, tail) ==
               if |before| <= |bare| then opening + tail else (bare + before[|bare|..])[..|before| - 2] + tail
  {
  }

  lemma LegacyFile(dump: Dump, w: Writer, before: string)
    ensures var full := Document(dump, w.deviceProperties, w.traceEvents + Window(w));
            FileOf(true, dump, w, before) == full + if |full| < |before| then before[|full|..] else ""
  {
    hide Document, Window;
    var full := Document(dump, w.deviceProperties, w.traceEvents + Window(w));
    assert before[..0] + full == full;
  }

  /** From a fresh file the two outputs write the same file exactly when the side buffer holds the legacy
      records, character for character. */
  lemma FreshFilesSameIff(dump: Dump, s: Writer, l: Writer)
    requires s.begin == l.begin && s.end == l.end && s.deviceProperties == l.deviceProperties
    requires s.traceEvents == []
    ensures FileOf(false, dump, s, "") == FileOf(true, dump, l, "") <==> s.side == Commas(dump, l.traceEvents)
  {
    hide Document, Joined, Commas, FileOf, Opening;
    StreamedFile(dump, s, "");
    LegacyFile(dump, l, "");
    LegacyDocument(dump, l);
    var tail := Joined(dump, Window(l)) + "]}";
    var opening := Opening(l.deviceProperties);
    assert FileOf(false, dump, s, "") == (opening + s.side) + tail;
    assert FileOf(true, dump, l, "") == (opening + Commas(dump, l.traceEvents)) + tail;
    Cancel(opening, s.side, Commas(dump, l.traceEvents), tail);
  }

  lemma Cancel(a: string, x: string, y: string, c: string)
    ensures (a + x) + c == (a + y) + c <==> x == y
  {
    if (a + x) + c == (a + y) + c {
      assert |x| == |y|;
      assert x == ((a + x) + c)[|a|..|a| + |x|];
      assert y == ((a + y) + c)[|a|..|a| + |y|];
    }
  }

  lemma NoLimitTogether(dump: Dump, cfg: Config, ps: seq<Push>)
    requires cfg.limit == 0
    ensures Refines(dump, Run(false, dump, cfg, ps), Run(true, dump, cfg, ps))
  {
    hide Run, Refines, Pushed;
    SameAdmissionsTogether(dump, cfg, ps, |ps|);
    assert ps[..|ps|] == ps;
  }

  /** Without a limit, and from a fresh file, the spliced file is the legacy dump, character for character: records
      that introduce a process or thread and the window records included. */
  lemma StreamingIsLegacy(dump: Dump, cfg: Config, ps: seq<Push>)
    requires cfg.limit == 0
    ensures var s, l := Run(false, dump, cfg, ps), Run(true, dump, cfg, ps);
            && FileOf(false, dump, s, "") == FileOf(true, dump, l, "")
            && FileOf(true, dump, l, "") == Document(dump, l.deviceProperties, l.traceEvents + Window(l))
  {
    hide Run, Document, FileOf;
    NoLimitTogether(dump, cfg, ps);
    var s, l := Run(false, dump, cfg, ps), Run(true, dump, cfg, ps);
    FreshFilesSameIff(dump, s, l);
    LegacyFile(dump, l, "");
  }

  /** Neither output truncates a file that is there already. The legacy output is right when the old file is no
      longer than the whole document, the streaming output only when it is no longer than the bare one. */
  lemma OldFileIff(dump: Dump, s: Writer, l: Writer, before: string)
    requires Refines(dump, s, l)
    ensures var full := Document(dump, l.deviceProperties, l.traceEvents + Window(l));
            && (FileOf(true, dump, l, before) == full <==> |before| <= |full|)
            && (FileOf(false, dump, s, before) == full <==> |before| <= |Document(dump, s.deviceProperties, [])|)
  {
    hide Joined, Commas, FileOf, Document, Opening;
    LegacyFile(dump, l, before);
    StreamedFile(dump, s, before);
    LegacyDocument(dump, l);
    var opening := Opening(l.deviceProperties);
    var tail := s.side + Joined(dump, Window(s)) + "]}";
    assert Window(s) == Window(l);
    assert opening + tail == opening + Commas(dump, l.traceEvents) + Joined(dump, Window(l)) + "]}";
  }

  // ---- writing twice ----

  /** What the writer keeps once it has written its file: the window records, or an emptied side buffer. */
  function AfterWrite(legacy: bool, w: Writer): Writer {
    if legacy then w.(traceEvents := w.traceEvents + Window(w)) else w.(side := "")
  }

  /** A second write, as a second exit frame asks for it, onto the file of the first. The legacy file is the longer
      document; in the streaming file the bare document is closed over the start of the first record. */
  lemma SecondWrite(dump: Dump, s: Writer, l: Writer)
    requires Refines(dump, s, l)
    ensures var w := AfterWrite(true, l);
            FileOf(true, dump, w, FileOf(true, dump, l, ""))
            == Document(dump, w.deviceProperties, w.traceEvents + Window(w))
    ensures var opening, tail := Opening(s.deviceProperties), s.side + Joined(dump, Window(s)) + "]}";
            |tail| >= 4 ==>
              FileOf(false, dump, AfterWrite(false, s), FileOf(false, dump, s, ""))
              == opening + "]}" + tail[2..|tail| - 2] + Joined(dump, Window(s)) + "]}"
  {
    LegacyTwice(dump, l);
    StreamedTwice(dump, s);
  }

  lemma StreamedTwice(dump: Dump, s: Writer)
    requires s.traceEvents == []
    ensures var opening, tail := Opening(s.deviceProperties), s.side + Joined(dump, Window(s)) + "]}";
            |tail| >= 4 ==>
              FileOf(false, dump, AfterWrite(false, s), FileOf(false, dump, s, ""))
              == opening + "]}" + tail[2..|tail| - 2] + Joined(dump, Window(s)) + "]}"
  {
    hide Joined, JoinedTexts, Commas, FileOf, Document, Opening, Window;
    var opening, tail := Opening(s.deviceProperties), s.side + Joined(dump, Window(s)) + "]}";
    StreamedFile(dump, s, "");
    SameWindow(s);
    StreamedFile(dump, AfterWrite(false, s), FileOf(false, dump, s, ""));
    if |tail| >= 4 {
      Closed(opening, tail, Joined(dump, Window(s)));
    }
  }

  lemma SameWindow(w: Writer)
    ensures Window(AfterWrite(true, w)) == Window(w) == Window(AfterWrite(false, w))
  {
  }

  lemma Closed(opening: string, tail: string, last: string)
    requires |tail| >= 4
    ensures var first, bare := opening + tail, opening + "]}";
            (bare + first[|bare|..])[..|first| - 2] + ("" + last + "]}")
            == bare + tail[2..|tail| - 2] + last + "]}"
  {
    var first, bare := opening + tail, opening + "]}";
    assert first[|bare|..] == tail[2..];
    assert (bare + tail[2..])[..|first| - 2] == bare + tail[2..|tail| - 2];
    assert "" + last + "]}" == last + "]}";
    Associates(bare + tail[2..|tail| - 2], last, "]}");
  }

  lemma Associates(a: string, b: string, c: string)
    ensures a + (b + c) == a + b + c
  {
  }

  lemma LegacyTwice(dump: Dump, l: Writer)
    ensures var w := AfterWrite(true, l);
            FileOf(true, dump, w, FileOf(true, dump, l, ""))
            == Document(dump, w.deviceProperties, w.traceEvents + Window(w))
  {
    hide FileOf, Window;
    var w := AfterWrite(true, l);
    SameWindow(l);
    LegacyFile(dump, l, "");
    LegacyFile(dump, w, FileOf(true, dump, l, ""));
    LongerDocument(dump, l.deviceProperties, w.traceEvents, Window(w));
  }

  lemma LongerDocument(dump: Dump, props: seq<string>, rs: seq<Record>, more: seq<Record>)
    ensures |Document(dump, props, rs)| <= |Document(dump, props, rs + more)|
  {
    JoinedLonger(dump, rs, more);
  }

  lemma {:induction false} JoinedLonger(dump: Dump, rs: seq<Record>, more: seq<Record>)
    ensures |Joined(dump, rs)| <= |Joined(dump, rs + more)|
  {
    if more == [] {
      assert rs + more == rs;
    } else {
      var all := rs + more;
      assert all[..|all| - 1] == rs + more[..|more| - 1];
      JoinedLonger(dump, rs, more[..|more| - 1]);
    }
  }

  // ---- with a limit ----

  /** Every limit is what some configured limit leaves. */
  lemma LimitReached(n: nat)
    ensures exists limit: nat :: ReducedLimit(limit) == n
  {
    assert ReducedLimit(n + n / 71) == n by {
      var q, r := n / 71, n % 71;
      assert n == 71 * q + r;
      assert n + q == 72 * q + r;
      assert (n + q) / 72 == q;
    }
  }

  lemma RunTwice(legacy: bool, dump: Dump, cfg: Config, p: Push)
    ensures Run(legacy, dump, cfg, [p, p]) == Pushed(legacy, dump, cfg, Pushed(legacy, dump, cfg, Start(), p), p)
  {
    hide Pushed;
    assert [p, p][..1] == [p] && [p][..0] == [];
    assert Run(legacy, dump, cfg, [p]) == Pushed(legacy, dump, cfg, Start(), p);
  }

  lemma PushedBounds(legacy: bool, dump: Dump, cfg: Config, w: Writer, p: Push)
    requires Accepts(dump, cfg, w, p) && p.PushCpu?
    ensures var w' := Pushed(legacy, dump, cfg, w, p);
            && w'.begin == Boundary(w, p.event.ts).begin && w'.end == Boundary(w, p.event.ts).end
            && w'.deviceProperties == w.deviceProperties
            && (!legacy ==> w'.traceEvents == w.traceEvents)
  {
  }

  lemma FirstSizes(dump: Dump, cfg: Config, p: Push)
    requires forall r :: dump(r) != ""
    requires p.PushCpu? && Accepts(dump, cfg, Start(), p)
    ensures Pushed(false, dump, cfg, Start(), p).size == Charge(dump, cfg, p)
    ensures Pushed(true, dump, cfg, Start(), p).size > Charge(dump, cfg, p)
  {
  }

  lemma SameCharge(dump: Dump, a: Config, b: Config, p: Push)
    requires a.pidMaps == b.pidMaps
    ensures Charge(dump, a, p) == Charge(dump, b, p)
  {
  }

  /** With a limit the outputs can differ, because only the legacy output counts the records that introduce a
      process or thread: for every event there is a limit under which two such events make different files. */
  lemma LimitDiverges(dump: Dump, procName: string, pidMaps: Option<map<U32, U32>>, e: Event, id: Usize,
      flowStart: bool)
    returns (cfg: Config, ps: seq<Push>)
    requires forall r :: dump(r) != ""
    ensures exists limit: nat :: cfg == Config(procName, ReducedLimit(limit), pidMaps)
    ensures ps == [PushCpu(e, id, flowStart), PushCpu(e, id, flowStart)]
    ensures FileOf(false, dump, Run(false, dump, cfg, ps), "") != FileOf(true, dump, Run(true, dump, cfg, ps), "")
  {
    hide FileOf, Introduced, Pushed, Run, Charge;
    var p := PushCpu(e, id, flowStart);
    ps := [p, p];
    var n := Charge(dump, Config(procName, 0, pidMaps), p) + LengthOf(dump, p);
    cfg := Config(procName, n, pidMaps);
    SameCharge(dump, Config(procName, 0, pidMaps), cfg, p);
    LimitReached(n);
    assert LengthOf(dump, p) > 0;
    var s0, l0 := Start(), Start();
    var s1, l1 := Pushed(false, dump, cfg, s0, p), Pushed(true, dump, cfg, l0, p);
    AcceptedRefines(dump, cfg, s0, l0, p);
    FirstSizes(dump, cfg, p);
    var s2, l2 := Pushed(false, dump, cfg, s1, p), Pushed(true, dump, cfg, l1, p);
    RunTwice(false, dump, cfg, p);
    RunTwice(true, dump, cfg, p);
    PushGrows(false, dump, cfg, s1, p);
    Dropped(true, dump, cfg, l1, p);
    PushedBounds(false, dump, cfg, s0, p);
    PushedBounds(true, dump, cfg, l0, p);
    PushedBounds(false, dump, cfg, s1, p);
    FreshFilesSameIff(dump, s2, l2);
  }

  // ---- agreeing again ----

  /** What the legacy output charges for introducing a CPU event's process and thread. */
  function IntroSize(dump: Dump, cfg: Config, p: Push): nat { Introduced(true, dump, cfg, Start(), p).size }

  lemma FirstPush(dump: Dump, cfg: Config, p: Push)
    requires p.PushCpu? && Accepts(dump, cfg, Start(), p)
    ensures var s, l := Pushed(false, dump, cfg, Start(), p), Pushed(true, dump, cfg, Start(), p);
            && s.size == Charge(dump, cfg, p) && l.size == IntroSize(dump, cfg, p) + Charge(dump, cfg, p)
            && Refines(dump, s, l)
            && Mapped(cfg, p.event.pid) in s.cpuPid && Mapped(cfg, p.event.tid) in s.cpuTid
  {
    AcceptedRefines(dump, cfg, Start(), Start(), p);
    hide Refines, Commas, PidObjects, TidObjects, Length, Mapped;
  }

  // Once its process and thread are known, an event writes its own two records.
  lemma KnownPush(legacy: bool, dump: Dump, cfg: Config, w: Writer, p: Push)
    requires p.PushCpu? && Accepts(dump, cfg, w, p)
    requires Mapped(cfg, p.event.pid) in w.cpuPid && Mapped(cfg, p.event.tid) in w.cpuTid
    ensures Pushed(legacy, dump, cfg, w, p) ==
      var b := Boundary(w, p.event.ts);
      Emit(legacy, dump, b.(size := w.size + Charge(dump, cfg, p)), OwnRecords(cfg, p))
  {
    hide Commas, PidObjects, TidObjects, Length, Mapped, OwnRecords, Charge;
  }

  // What one output writes early the other writes late: the same records.
  lemma LateIsEarly(dump: Dump, s: Writer, l: Writer, ts: Option<real>, m: nat, n: nat, rs: seq<Record>)
    requires Refines(dump, s, l)
    ensures Refines(dump, Emit(false, dump, Boundary(s, ts).(size := m), rs).(missed := s.missed + 1),
      Emit(true, dump, Boundary(l.(missed := l.missed + 1), ts).(size := n), rs))
  {
    CommasAppend(dump, l.traceEvents, rs);
    hide Commas;
  }

  /** The same records can come from events of different length, as process identifiers are cut to 32 bits. */
  lemma SameRecords(cfg: Config, e: Event, pid: U32, id: Usize, flowStart: bool)
    requires cfg.pidMaps == None
    ensures var (p, q) := (PushCpu(e.(pid := Some(pid)), id, flowStart),
                           PushCpu(e.(pid := Some(pid + 0x1_0000_0000)), id, flowStart));
            OwnRecords(cfg, p) == OwnRecords(cfg, q) && Mapped(cfg, p.event.pid) == Mapped(cfg, q.event.pid)
  {
  }

  lemma RunThrice(legacy: bool, dump: Dump, cfg: Config, p: Push, q: Push)
    ensures var w1 := Pushed(legacy, dump, cfg, Start(), p);
            && Run(legacy, dump, cfg, [p, q]) == Pushed(legacy, dump, cfg, w1, q)
            && Run(legacy, dump, cfg, [p, q, p]) == Pushed(legacy, dump, cfg, Pushed(legacy, dump, cfg, w1, q), p)
  {
    hide Pushed;
    assert [p, q, p][..2] == [p, q] && [p, q][..1] == [p] && [p][..0] == [];
    assert Run(legacy, dump, cfg, [p]) == Pushed(legacy, dump, cfg, Start(), p);
  }

  /** Outputs that have parted can come to agree again: the streaming output takes an event that the legacy output
      drops, and the legacy output then a shorter one, with the same records, that the streaming output drops. It
      takes no more than a longer identifier, and records long enough to fill the room left. */
  lemma FilesAgreeAgain(dump: Dump, procName: string, e: Event, pid: U32, id: Usize, flowStart: bool)
    returns (cfg: Config, p: Push, q: Push)
    requires var (p, q) := (PushCpu(e.(pid := Some(pid)), id, flowStart),
                            PushCpu(e.(pid := Some(pid + 0x1_0000_0000)), id, flowStart));
             var intro := IntroSize(dump, Config(procName, 0, None), p);
             && LengthOf(dump, p) < LengthOf(dump, q) <= LengthOf(dump, p) + intro
             && intro < Charge(dump, Config(procName, 0, None), q)
    ensures exists limit: nat :: cfg == Config(procName, ReducedLimit(limit), None)
    ensures p == PushCpu(e.(pid := Some(pid)), id, flowStart)
    ensures q == PushCpu(e.(pid := Some(pid + 0x1_0000_0000)), id, flowStart)
    ensures !Refines(dump, Run(false, dump, cfg, [p, q]), Run(true, dump, cfg, [p, q]))
    ensures Refines(dump, Run(false, dump, cfg, [p, q, p]), Run(true, dump, cfg, [p, q, p]))
    ensures FileOf(false, dump, Run(false, dump, cfg, [p, q, p]), "")
            == FileOf(true, dump, Run(true, dump, cfg, [p, q, p]), "")
  {
    hide FileOf, Introduced, Pushed, Run, Charge, Refines, OwnRecords, Emit, Boundary, Mapped;
    p := PushCpu(e.(pid := Some(pid)), id, flowStart);
    q := PushCpu(e.(pid := Some(pid + 0x1_0000_0000)), id, flowStart);
    var free := Config(procName, 0, None);
    var intro := IntroSize(dump, free, p);
    var n := Charge(dump, free, p) + intro + LengthOf(dump, p);
    cfg := Config(procName, n, None);
    LimitReached(n);
    LimitNoMatter(dump, free, cfg, p);
    LimitNoMatter(dump, free, cfg, q);
    SameRecords(cfg, e, pid, id, flowStart);
    FirstPush(dump, cfg, p);
    RunThrice(false, dump, cfg, p, q);
    RunThrice(true, dump, cfg, p, q);
    var s1, l1 := Pushed(false, dump, cfg, Start(), p), Pushed(true, dump, cfg, Start(), p);
    PushRefinesIff(dump, cfg, s1, l1, q);
    KnownPush(false, dump, cfg, s1, q);
    Dropped(true, dump, cfg, l1, q);
    var s2, l2 := Pushed(false, dump, cfg, s1, q), Pushed(true, dump, cfg, l1, q);
    SizeAfter(dump, s1, e.ts, s1.size + Charge(dump, cfg, q), OwnRecords(cfg, q));
    Dropped(false, dump, cfg, s2, p);
    SameIds(dump, s1, l1);
    KnownPush(true, dump, cfg, l2, p);
    LateIsEarly(dump, s1, l1, e.ts, s2.size, l2.size + Charge(dump, cfg, p), OwnRecords(cfg, p));
    var s3, l3 := Pushed(false, dump, cfg, s2, p), Pushed(true, dump, cfg, l2, p);
    SameFiles(dump, s3, l3);
  }

  lemma LimitNoMatter(dump: Dump, a: Config, b: Config, p: Push)
    requires a.pidMaps == b.pidMaps && a.procName == b.procName && p.PushCpu?
    ensures Charge(dump, a, p) == Charge(dump, b, p) && IntroSize(dump, a, p) == IntroSize(dump, b, p)
  {
    hide Commas, Length;
  }

  lemma SizeAfter(dump: Dump, w: Writer, ts: Option<real>, size: nat, rs: seq<Record>)
    ensures var w' := Emit(false, dump, Boundary(w, ts).(size := size), rs);
            w'.size == size && w'.missed == w.missed
  {
    hide Commas;
  }

  lemma SameIds(dump: Dump, s: Writer, l: Writer)
    requires Refines(dump, s, l)
    ensures s.cpuPid == l.cpuPid && s.cpuTid == l.cpuTid
  {
  }

  lemma SameFiles(dump: Dump, s: Writer, l: Writer)
    requires Refines(dump, s, l)
    ensures FileOf(false, dump, s, "") == FileOf(true, dump, l, "")
  {
    hide FileOf, Commas;
    FreshFilesSameIff(dump, s, l);
  }

  // ---- the writer ----

  class TracingInfo {
    const dump: Dump
    const cfg: Config
    const legacyOutput: bool
    var begin: real
    var end: real
    var deviceProperties: seq<string>
    var traceEvents: seq<Record>
    var side: string
    var cpuPid: set<Usize>
    var cpuTid: set<Usize>
    var gpuPid: set<Usize>
    var gpuTid: set<Usize>
    var missed: nat
    var size: nat

    function Now(): Writer
      reads this
    {
      Writer(begin, end, deviceProperties, traceEvents, side, cpuPid, cpuTid, gpuPid, gpuTid, missed, size)
    }

    constructor (dump: Dump, procName: string, limit: nat, legacyOutput: bool, pidMaps: Option<map<U32, U32>>)
      ensures Now() == Start()
      ensures this.dump == dump && this.legacyOutput == legacyOutput
      ensures cfg == Config(procName, ReducedLimit(limit), pidMaps)
    {
      this.dump, this.legacyOutput := dump, legacyOutput;
      cfg := Config(procName, limit - limit / 72, pidMaps);
      begin, end, deviceProperties, traceEvents, side := F64_MAX, 0.0, [], [], "";
      cpuPid, cpuTid, gpuPid, gpuTid, missed, size := {}, {}, {}, {}, 0, 0;
    }

    method UpdateBoundary(ts: Option<real>)
      modifies this`begin, this`end
      ensures Now() == Boundary(old(Now()), ts)
    {
      if ts.Some? {
        begin := if ts.value < begin then ts.value else begin;
        end := if ts.value > end then ts.value else end;
      }
    }

    method WriteBuffer(buffer: string)
      modifies this`side
      ensures side == old(side) + buffer
    {
      side := side + buffer;
    }

    /** The three records that introduce a process. */
    method IntroduceProcess(processName: Record, labels: Record, sortIndex: Record)
      modifies this`size, this`traceEvents, this`side
      ensures Now() == EmitIntro(legacyOutput, dump, old(Now()), [processName, labels, sortIndex])
    {
      hide Length, Commas, ConcatStrings;
      if legacyOutput {
        size := size + |dump(processName)|;
        traceEvents := traceEvents + [processName];
        size := size + |dump(labels)|;
        traceEvents := traceEvents + [labels];
        size := size + |dump(sortIndex)|;
        traceEvents := traceEvents + [sortIndex];
        LengthOfThree(dump, processName, labels, sortIndex);
        assert traceEvents == old(traceEvents) + [processName, labels, sortIndex];
      } else {
        JoinedIsCommas(dump, [processName, labels, sortIndex]);
        WriteBuffer(ConcatStrings(dump, [processName, labels, sortIndex], ","));
      }
    }

    /** The two records that introduce a thread or stream. */
    method IntroduceThread(threadName: Record, sortIndex: Record)
      modifies this`size, this`traceEvents, this`side
      ensures Now() == EmitIntro(legacyOutput, dump, old(Now()), [threadName, sortIndex])
    {
      hide Length, Commas, ConcatStrings;
      if legacyOutput {
        size := size + |dump(threadName)|;
        traceEvents := traceEvents + [threadName];
        size := size + |dump(sortIndex)|;
        traceEvents := traceEvents + [sortIndex];
        LengthOfTwo(dump, threadName, sortIndex);
        assert traceEvents == old(traceEvents) + [threadName, sortIndex];
      } else {
        JoinedIsCommas(dump, [threadName, sortIndex]);
        WriteBuffer(ConcatStrings(dump, [threadName, sortIndex], ","));
      }
    }

    method UpdateCpuPidOf(pid: Usize, ts: Option<real>)
      modifies this`cpuPid, this`size, this`traceEvents, this`side
      ensures Now() == UpdateCpuPid(legacyOutput, dump, cfg, old(Now()), pid, ts)
    {
      if pid !in cpuPid {
        cpuPid := cpuPid + {pid};
        IntroduceProcess(ProcessName(pid, ts, cfg.procName), ProcessLabels(pid, ts, false),
          ProcessSortIndex(pid, ts, pid));
      }
    }

    method UpdateCpuTidOf(tid: Usize, pid: Usize, ts: Option<real>)
      modifies this`cpuTid, this`size, this`traceEvents, this`side
      ensures Now() == UpdateCpuTid(legacyOutput, dump, old(Now()), tid, pid, ts)
    {
      if tid !in cpuTid {
        cpuTid := cpuTid + {tid};
        IntroduceThread(ThreadName(pid, tid, ts, false), ThreadSortIndex(pid, tid, ts));
      }
    }

    method UpdateGpuPidOf(pid: Usize, ts: Option<real>)
      modifies this`gpuPid, this`size, this`traceEvents, this`side
      ensures Now() == UpdateGpuPid(legacyOutput, dump, cfg, old(Now()), pid, ts)
    {
      if pid !in gpuPid {
        gpuPid := gpuPid + {pid};
        IntroduceProcess(
          ProcessName(pid, ts, cfg.procName), ProcessLabels(pid, ts, true), ProcessSortIndex(pid, ts, USIZE_MAX - pid));
      }
    }

    method UpdateGpuTidOf(tid: Usize, pid: Usize, ts: Option<real>)
      modifies this`gpuTid, this`size, this`traceEvents, this`side
      ensures Now() == UpdateGpuTid(legacyOutput, dump, old(Now()), tid, pid, ts)
    {
      if tid !in gpuTid {
        gpuTid := gpuTid + {tid};
        IntroduceThread(ThreadName(pid, tid, ts, true), ThreadSortIndex(pid, tid, ts));
      }
    }

    /** The event and its flow record. */
    method WriteEvent(event: Record, flow: Record, len: nat)
      modifies this`size, this`traceEvents, this`side
      ensures var w := old(Now());
              Now() == Emit(legacyOutput, dump, w.(size := w.size + len + |dump(flow)|), [event, flow])
    {
      size := size + len + |dump(flow)|;
      if legacyOutput {
        traceEvents := traceEvents + [event];
        traceEvents := traceEvents + [flow];
        assert traceEvents == old(traceEvents) + [event, flow];
      } else {
        JoinedIsCommas(dump, [event, flow]);
        WriteBuffer(ConcatStrings(dump, [event, flow], ","));
      }
    }

    method PushEventCpu(event: Event, correlationId: Usize, flowStart: bool)
      modifies this
      ensures Now() == Pushed(legacyOutput, dump, cfg, old(Now()), PushCpu(event, correlationId, flowStart))
    {
      hide Emit, Mapped, Boundary, UpdateCpuPid, UpdateCpuTid;
      var len := |dump(Cupti(event))|;
      if cfg.limit > 0 && size + len > cfg.limit {
        missed := missed + 1;
        return;
      }
      UpdateBoundary(event.ts);
      var pid := Mapped(cfg, event.pid);
      UpdateCpuPidOf(pid, event.ts);
      var tid := Mapped(cfg, event.tid);
      UpdateCpuTidOf(tid, pid, event.ts);
      WriteEvent(Cupti(event.(pid := Some(pid), tid := Some(tid))),
        Flow(flowStart, event.ts, pid, tid, correlationId), len);
    }

    method PushEventGpu(event: Event, correlationId: Usize)
      modifies this
      ensures Now() == Pushed(legacyOutput, dump, cfg, old(Now()), PushGpu(event, correlationId))
    {
      hide Emit, Boundary, UpdateGpuPid, UpdateGpuTid;
      var len := |dump(Cupti(event))|;
      if cfg.limit > 0 && size + len > cfg.limit {
        missed := missed + 1;
        return;
      }
      UpdateBoundary(event.ts);
      var pid := Plain(event.pid);
      UpdateGpuPidOf(pid, event.ts);
      var tid := Plain(event.tid);
      UpdateGpuTidOf(tid, pid, event.ts);
      WriteEvent(Cupti(event), Flow(false, event.ts, pid, tid, correlationId), len);
    }

    method PushDeviceProps(text: string)
      modifies this`deviceProperties
      ensures Now() == Pushed(legacyOutput, dump, cfg, old(Now()), PushProps(text))
    {
      deviceProperties := deviceProperties + [text];
      assert Now().traceEvents + [] == Now().traceEvents && Now().side + "" == Now().side;
    }

    method PushMeta(text: string)
      modifies this`traceEvents, this`side, this`missed
      ensures Now() == Pushed(legacyOutput, dump, cfg, old(Now()), PushMetadata(text))
    {
      var len := |dump(Metadata(text))|;
      if cfg.limit > 0 && size + len > cfg.limit {
        missed := missed + 1;
        return;
      }
      if legacyOutput {
        traceEvents := traceEvents + [Metadata(text)];
      } else {
        JoinedIsCommas(dump, [Metadata(text)]);
        WriteBuffer(ConcatStrings(dump, [Metadata(text)], ","));
      }
    }

    /** `write_file` onto a file that holds `before`: the legacy document keeps the window records, the side
        buffer is removed. */
    method WriteFile(before: string) returns (file: string)
      modifies this`traceEvents, this`side
      ensures file == FileOf(legacyOutput, dump, old(Now()), before)
      ensures Now() == AfterWrite(legacyOutput, old(Now()))
    {
      hide Document;
      if legacyOutput {
        traceEvents := traceEvents + [WindowStart(begin)];
        traceEvents := traceEvents + [WindowEnd(end)];
        assert traceEvents == old(traceEvents) + Window(old(Now()));
      } else {
        WriteBuffer(ConcatStrings(dump, [WindowStart(begin), WindowEnd(end)], "]}"));
      }
      file := Overwrite(before, 0, Document(dump, deviceProperties, traceEvents));
      if !legacyOutput {
        DocumentLength(dump, deviceProperties, traceEvents);
        file := Overwrite(file, |file| - 2, side);
        side := "";
      }
    }
  }

  lemma LengthOfTwo(dump: Dump, a: Record, b: Record)
    ensures Length(dump, [a, b]) == |dump(a)| + |dump(b)|
  {
    assert [a, b][..1] == [a] && [a][..0] == [];
    assert Length(dump, [a]) == |dump(a)|;
  }

  lemma LengthOfThree(dump: Dump, a: Record, b: Record, c: Record)
    ensures Length(dump, [a, b, c]) == |dump(a)| + |dump(b)| + |dump(c)|
  {
    assert [a, b, c][..2] == [a, b];
    LengthOfTwo(dump, a, b);
  }

  lemma JoinedIsCommas(dump: Dump, rs: seq<Record>)
    requires rs != []
    ensures ConcatStrings(dump, rs, ",") == Commas(dump, rs)
  {
    var n := |rs| - 1;
    CommasThenOne(dump, rs[..n], rs[n]);
    assert rs == rs[..n] + [rs[n]];
  }
}
