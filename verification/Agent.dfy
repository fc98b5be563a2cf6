// What the dashboard server keeps for one agent, and what each stretch of its handlers
// between two `await`s does to it (server/dashboard/dashboardServer.js).
module Agents {
  import opened Wrappers
  import opened CollectionQueues

  type PollId = nat

  datatype Status = Idle | Profiling | Dispatching | Offline

  datatype Transport = WebSocket | LongPoll

  /** The client record; a status or a transport can be undefined. */
  datatype Record = Record(status: Option<Status>, transport: Option<Transport>)

  datatype Agent = Agent(
    record: Option<Record>,
    lane: Lane,
    books: Books,
    waiter: Option<PollId>,    // the long poll held open
    armed: set<PollId>,        // polls whose timer can still fire
    stash: Option<TaskId>,     // dispatched while no poll was open
    socketOpen: bool,
    rejected: Option<TaskId>)  // a dispatch that threw, its catch block still to run

  datatype Answer = Answer(poll: PollId, task: Option<TaskId>)

  /** The agent after a stretch, the polls it answered and the NEW_TASK frame it sent, if any. */
  datatype Out = Out(agent: Agent, answers: seq<Answer>, frame: Option<TaskId>)

  function Quiet(a: Agent): Out { Out(a, [], None) }

  datatype Event =
    | StartAnalysis(item: Item, maxPerClient: nat)
    | SocketRegister
    | AgentRegister
    | ClientsRegister
    | SocketHeartbeat(status: Option<Status>)
    | AgentHeartbeat(status: Option<Status>)
    | ClientsHeartbeat(status: Option<Status>)
    | PollArrives(poll: PollId)
    | PollCloses(poll: PollId)
    | PollTimer(poll: PollId)
    | AgentResult(id: TaskId)
    | SocketResult(id: TaskId)
    | SocketClose
    | DispatchWatchdog
    | SweepOffline
    | SweepQueue(cutoff: int)
    | DispatchCaught

  function WithStatus(r: Record, status: Status): Record { r.(status := Some(status)) }

  /** A heartbeat's status wins; without one an undefined status becomes Idle. */
  function Beat(r: Record, status: Option<Status>): Record {
    if status.Some? then r.(status := status)
    else if r.status.None? then WithStatus(r, Idle)
    else r
  }

  function RecordOr(a: Agent, default: Record): Record {
    if a.record.Some? then a.record.value else default
  }

  function DispatchingToIdle(a: Agent): Agent {
    if a.record.Some? && a.record.value.status == Some(Dispatching)
    then a.(record := Some(WithStatus(a.record.value, Idle)))
    else a
  }

  function ResolveWaiter(a: Agent, task: Option<TaskId>): Out {
    match a.waiter
    case None => Quiet(a)
    case Some(p) => Out(a.(waiter := None, armed := a.armed - {p}), [Answer(p, task)], None)
  }

  /** `dispatchQueuedTask`: throw, resolve the open poll, stash for the next one, or send a frame. */
  function DispatchTask(a: Agent, id: TaskId): Out {
    if a.record.None? then Quiet(a.(rejected := Some(id)))
    else if a.record.value.transport != Some(LongPoll) && !a.socketOpen then Quiet(a.(rejected := Some(id)))
    else
      var b := a.(record := Some(WithStatus(a.record.value, Dispatching)));
      if a.record.value.transport == Some(LongPoll) then
        if a.waiter.Some? then ResolveWaiter(b, Some(id)) else Quiet(b.(stash := Some(id)))
      else Out(b, [], Some(id))
  }

  function PumpAgent(a: Agent): Out {
    if Pumps(a.lane)
    then DispatchTask(
           a.(lane := PumpLane(a.lane), books := PumpBooks(a.books, a.lane.queue[0])),
           a.lane.queue[0].analysisId)
    else Quiet(a)
  }

  function PumpIfIdle(a: Agent): Out {
    if a.record.Some? && a.record.value.status == Some(Idle) && a.lane.queue != [] then PumpAgent(a) else Quiet(a)
  }

  /** Whether `start_ai_analysis` gets past its checks and the queue takes the item. */
  predicate Accepts(a: Agent, maxPerClient: nat) {
    && a.record.Some?
    && (a.record.value.transport == Some(LongPoll) ==> a.record.value.status != Some(Offline))
    && (a.record.value.transport != Some(LongPoll) ==> a.socketOpen)
    && |a.lane.queue| < maxPerClient
  }

  function ParkPoll(a: Agent, p: PollId): Out {
    var prior := ResolveWaiter(a, None);
    var parked := prior.agent.(waiter := Some(p), armed := prior.agent.armed + {p});
    var pumped := PumpIfIdle(parked);
    Out(pumped.agent, prior.answers + pumped.answers, pumped.frame)
  }

  function FinishTask(a: Agent, id: TaskId): Out {
    PumpAgent(a.(
      lane := DoneLane(a.lane, id),
      books := if a.lane.running == Some(id) then FinishBooks(a.books, id) else a.books))
  }

  function Serve(a: Agent, e: Event): Out {
    match e
    case StartAnalysis(item, maxPerClient) =>
      if !Accepts(a, maxPerClient) then Quiet(a)
      else
        var b := a.(lane := a.lane.(queue := a.lane.queue + [item]), books := AcceptBooks(a.books, item));
        if a.record.value.status == Some(Idle) then PumpAgent(b) else Quiet(b)
    case SocketRegister =>
      Quiet(a.(record := Some(Record(Some(Idle), Some(WebSocket))), socketOpen := true))
    case AgentRegister =>
      Quiet(a.(record := Some(Record(Some(Idle), Some(LongPoll)))))
    case ClientsRegister =>
      Quiet(a.(record := Some(Beat(Record(RecordOr(a, Record(None, None)).status, None), None))))
    case SocketHeartbeat(status) =>
      PumpIfIdle(a.(record := Some(Beat(RecordOr(a, Record(None, None)), status))))
    case AgentHeartbeat(status) =>
      var r := Beat(RecordOr(a, Record(None, Some(LongPoll))), status);
      PumpIfIdle(a.(record := Some(if r.transport.None? then r.(transport := Some(LongPoll)) else r)))
    case ClientsHeartbeat(status) =>
      Quiet(a.(record := Some(Beat(RecordOr(a, Record(None, None)), status))))
    case PollArrives(p) =>
      var r := RecordOr(a, Record(None, Some(LongPoll)));
      var r' := if r.transport.None? then r.(transport := Some(LongPoll)) else r;
      var r'' := if r'.status.None? || r'.status == Some(Offline) then WithStatus(r', Idle) else r';
      var b := a.(record := Some(r''));
      if a.stash.Some? then Out(b.(stash := None), [Answer(p, a.stash)], None) else ParkPoll(b, p)
    case PollCloses(p) =>
      if a.waiter == Some(p) then ResolveWaiter(a, None) else Quiet(a)
    case PollTimer(p) =>
      // the callback deletes whatever waiter there is, but answers its own poll
      if p in a.armed then Out(a.(waiter := None, armed := a.armed - {p}), [Answer(p, None)], None) else Quiet(a)
    case AgentResult(id) => FinishTask(DispatchingToIdle(a).(stash := None), id)
    case SocketResult(id) => FinishTask(DispatchingToIdle(a), id)
    case SocketClose =>
      Quiet(a.(socketOpen := false,
               record := if a.record.Some? then Some(WithStatus(a.record.value, Offline)) else None))
    case DispatchWatchdog => Quiet(DispatchingToIdle(a))
    case SweepOffline =>
      if a.record.Some? && a.record.value.transport == Some(LongPoll) && a.record.value.status != Some(Offline)
      then ResolveWaiter(a.(record := Some(WithStatus(a.record.value, Offline))), None)
      else Quiet(a)
    case SweepQueue(cutoff) =>
      Quiet(a.(lane := a.lane.(queue := Kept(a.lane.queue, cutoff)),
               books := ExpireBooks(a.books, Expired(a.lane.queue, cutoff))))
    case DispatchCaught =>
      if a.rejected.Some?
      then Quiet(a.(rejected := None, lane := a.lane.(running := None), books := FailBooks(a.books, a.lane.running)))
      else Quiet(a)
  }

  // ---- what every stretch keeps ----

  function Tasks(answers: seq<Answer>): multiset<TaskId> {
    if answers == [] then multiset{} else Bag(answers[0].task) + Tasks(answers[1..])
  }

  function Polls(answers: seq<Answer>): multiset<PollId> {
    if answers == [] then multiset{} else multiset{answers[0].poll} + Polls(answers[1..])
  }

  /** The tasks the server hands to the network in a stretch. */
  function Handed(o: Out): multiset<TaskId> { Tasks(o.answers) + Bag(o.frame) }

  /** The copies of tasks that are out of the queue and still at the server. */
  function Held(a: Agent): multiset<TaskId> { Bag(a.stash) + Bag(a.rejected) }

  function Settled(a: Agent): multiset<TaskId> { Bag(a.lane.running) + a.books.finished + a.books.failed }

  /** The task a message brings back to the server, and the poll it opens. */
  function Returned(e: Event): multiset<TaskId> {
    match e
    case AgentResult(id) => multiset{id}
    case SocketResult(id) => multiset{id}
    case _ => multiset{}
  }

  function Opened(e: Event): multiset<PollId> {
    if e.PollArrives? then multiset{e.poll} else multiset{}
  }

  /** No poll waits while a task is stashed, and the armed timers are exactly the waiter's. */
  ghost predicate Parked(a: Agent) {
    && (a.waiter.Some? ==> a.stash.None?)
    && a.armed == (if a.waiter.Some? then {a.waiter.value} else {})
  }

  /** The safety of one agent's tasks, with `away` the copies of them outside the server and `handed`
      the tasks handed out so far: every copy outside the queue is the running task's, so there is at
      most one copy of at most one task; and what was handed out is not held back for another handing out. */
  ghost predicate Safe(a: Agent, away: multiset<TaskId>, handed: multiset<TaskId>) {
    && Parked(a) && Balanced(a.lane, a.books)
    && Held(a) + away <= Bag(a.lane.running)
    && handed + Held(a) <= Settled(a)
  }

  /** A stretch that answers `o.answers` accounts for every poll it had parked or opened. */
  ghost predicate PollsKept(waiter: Option<PollId>, arrived: multiset<PollId>, o: Out) {
    Polls(o.answers) + Bag(o.agent.waiter) == Bag(waiter) + arrived
  }

  lemma SingleAnswer(p: PollId, t: Option<TaskId>)
    ensures Tasks([Answer(p, t)]) == Bag(t) && Polls([Answer(p, t)]) == multiset{p}
  {
  }

  lemma {:induction false} AnswersAppend(a: seq<Answer>, b: seq<Answer>)
    ensures Tasks(a + b) == Tasks(a) + Tasks(b) && Polls(a + b) == Polls(a) + Polls(b)
  {
    if a == [] {
      assert a + b == b;
    } else {
      assert (a + b)[1..] == a[1..] + b;
      AnswersAppend(a[1..], b);
    }
  }

  lemma QuietKeeps(a: Agent)
    ensures Handed(Quiet(a)) == multiset{} && PollsKept(a.waiter, multiset{}, Quiet(a))
  {
  }

  // Resolving the waiter answers it, with the given task, and hands out no other.
  lemma ResolveKeeps(a: Agent, t: Option<TaskId>)
    requires Parked(a)
    ensures var o := ResolveWaiter(a, t);
            && o.agent == a.(waiter := None, armed := {}) && PollsKept(a.waiter, multiset{}, o)
            && Handed(o) == if a.waiter.Some? then Bag(t) else multiset{}
  {
    if a.waiter.Some? {
      SingleAnswer(a.waiter.value, t);
    } else {
      QuietKeeps(a);
    }
  }

  // Dispatching `id` puts exactly one copy of it somewhere.
  lemma DispatchKeeps(a: Agent, id: TaskId)
    requires Parked(a) && a.stash.None? && a.rejected.None?
    ensures var o := DispatchTask(a, id);
            && Parked(o.agent) && o.agent.lane == a.lane && o.agent.books == a.books
            && Held(o.agent) + Handed(o) == multiset{id}
            && PollsKept(a.waiter, multiset{}, o)
  {
    hide Handed, PollsKept, ResolveWaiter;
    if a.record.Some? && (a.record.value.transport == Some(LongPoll) || a.socketOpen) {
      var b := a.(record := Some(WithStatus(a.record.value, Dispatching)));
      if a.record.value.transport != Some(LongPoll) {
        FrameKeeps(b, id);
      } else if a.waiter.Some? {
        ResolveKeeps(b, Some(id));
      } else {
        QuietKeeps(b.(stash := Some(id)));
      }
    } else {
      QuietKeeps(a.(rejected := Some(id)));
    }
  }

  lemma FrameKeeps(a: Agent, id: TaskId)
    ensures Handed(Out(a, [], Some(id))) == multiset{id} && PollsKept(a.waiter, multiset{}, Out(a, [], Some(id)))
  {
  }

  /** A pump keeps its agent safe: it dispatches only when no copy of any task is about. */
  lemma PumpKeeps(a: Agent, away: multiset<TaskId>, handed: multiset<TaskId>)
    requires Safe(a, away, handed)
    ensures var o := PumpAgent(a);
            Safe(o.agent, away + Handed(o), handed + Handed(o)) && PollsKept(a.waiter, multiset{}, o)
  {
    hide Balanced, PollsKept, Handed;
    var o := PumpAgent(a);
    if Pumps(a.lane) {
      EmptyHeld(a, away);
      PumpBalanced(a.lane, a.books);
      var b := a.(lane := PumpLane(a.lane), books := PumpBooks(a.books, a.lane.queue[0]));
      var id := a.lane.queue[0].analysisId;
      DispatchKeeps(b, id);
      assert Settled(b) == Settled(a) + multiset{id};
      DispatchSafe(o.agent, id, Handed(o), handed, Settled(a));
    } else {
      QuietKeeps(a);
      assert away + multiset{} == away && handed + multiset{} == handed;
    }
  }

  lemma DispatchSafe(a: Agent, id: TaskId, now: multiset<TaskId>, handed: multiset<TaskId>, settled: multiset<TaskId>)
    requires Held(a) + now == multiset{id} && a.lane.running == Some(id)
    requires handed <= settled && Settled(a) == settled + multiset{id}
    ensures Held(a) + (multiset{} + now) <= Bag(a.lane.running)
    ensures handed + now + Held(a) <= Settled(a)
  {
  }

  lemma EmptyHeld(a: Agent, away: multiset<TaskId>)
    requires Held(a) + away <= multiset{}
    ensures a.stash.None? && a.rejected.None? && away == multiset{} == Held(a)
  {
  }

  // What a stretch changes besides tasks and polls does not matter to safety.
  lemma SafeRecord(a: Agent, r: Option<Record>, open: bool, away: multiset<TaskId>, handed: multiset<TaskId>)
    requires Safe(a, away, handed)
    ensures Safe(a.(record := r, socketOpen := open), away, handed)
  {
  }

  lemma PumpIfIdleKeeps(a: Agent, away: multiset<TaskId>, handed: multiset<TaskId>)
    requires Safe(a, away, handed)
    ensures var o := PumpIfIdle(a);
            Safe(o.agent, away + Handed(o), handed + Handed(o)) && PollsKept(a.waiter, multiset{}, o)
  {
    hide Safe, PollsKept, Handed, PumpAgent;
    PumpKeeps(a, away, handed);
    QuietKeeps(a);
    assert away + multiset{} == away && handed + multiset{} == handed;
  }

  lemma ResolveSafe(a: Agent, away: multiset<TaskId>, handed: multiset<TaskId>)
    requires Safe(a, away, handed)
    ensures var o := ResolveWaiter(a, None);
            && Safe(o.agent, away, handed) && o.agent.waiter.None? && o.agent.stash == a.stash
            && Handed(o) == multiset{} && PollsKept(a.waiter, multiset{}, o)
  {
    hide Balanced, PollsKept, Handed;
    ResolveKeeps(a, None);
  }

  lemma ParkKeeps(a: Agent, p: PollId, away: multiset<TaskId>, handed: multiset<TaskId>)
    requires Safe(a, away, handed) && a.stash.None?
    ensures var o := ParkPoll(a, p);
            Safe(o.agent, away + Handed(o), handed + Handed(o)) && PollsKept(a.waiter, multiset{p}, o)
  {
    hide Balanced, PumpIfIdle, ResolveWaiter, PollsKept, Handed;
    ResolveSafe(a, away, handed);
    var prior := ResolveWaiter(a, None);
    var parked := prior.agent.(waiter := Some(p), armed := prior.agent.armed + {p});
    PumpIfIdleKeeps(parked, away, handed);
    ParkAdds(a.waiter, p, prior, PumpIfIdle(parked));
  }

  lemma ParkAdds(waiter: Option<PollId>, p: PollId, prior: Out, pumped: Out)
    requires PollsKept(waiter, multiset{}, prior) && prior.agent.waiter.None? && Handed(prior) == multiset{}
    requires PollsKept(Some(p), multiset{}, pumped)
    ensures var o := Out(pumped.agent, prior.answers + pumped.answers, pumped.frame);
            Handed(o) == Handed(pumped) && PollsKept(waiter, multiset{p}, o)
  {
    AnswersAppend(prior.answers, pumped.answers);
    hide Polls, Tasks;
    PollSum(Polls(prior.answers), Bag(waiter), Polls(pumped.answers), Bag(pumped.agent.waiter), p);
    assert Handed(prior) == Tasks(prior.answers) + Bag(prior.frame);
    NoneLeft(Tasks(prior.answers), Bag(prior.frame));
  }

  lemma PollSum(a: multiset<PollId>, w: multiset<PollId>, b: multiset<PollId>, v: multiset<PollId>, p: PollId)
    requires a + multiset{} == w + multiset{} && b + v == multiset{p} + multiset{}
    ensures a + b + v == w + multiset{p}
  {
    assert a == a + multiset{} == w && multiset{p} + multiset{} == multiset{p};
    assert a + b + v == a + (b + v);
  }

  lemma NoneLeft(m: multiset<TaskId>, n: multiset<TaskId>)
    requires m + n == multiset{}
    ensures m == multiset{}
  {
  }

  // The result of the running task comes back: its copy is the only one, so nothing is left of it.
  lemma FinishKeeps(a: Agent, id: TaskId, away: multiset<TaskId>, handed: multiset<TaskId>)
    requires Safe(a, away + multiset{id}, handed)
    ensures var o := FinishTask(a, id);
            Safe(o.agent, away + Handed(o), handed + Handed(o)) && PollsKept(a.waiter, multiset{}, o)
  {
    hide Balanced, PumpAgent, PollsKept, Handed;
    assert id in Held(a) + (away + multiset{id});
    DoneBalanced(a.lane, a.books, id);
    var b := a.(lane := DoneLane(a.lane, id), books := FinishBooks(a.books, id));
    assert Held(a) + (away + multiset{id}) - multiset{id} == Held(a) + away;
    assert Held(b) + away <= multiset{};
    assert Settled(b) == Settled(a);
    PumpKeeps(b, away, handed);
  }

  lemma CaughtKeeps(a: Agent, away: multiset<TaskId>, handed: multiset<TaskId>)
    requires Safe(a, away, handed) && a.rejected.Some?
    ensures Safe(Serve(a, DispatchCaught).agent, away, handed)
  {
    hide Balanced;
    FailBalanced(a.lane, a.books);
    OnlyCopy(Bag(a.stash), a.rejected.value, away, a.lane.running);
    assert Settled(Serve(a, DispatchCaught).agent) == Settled(a);
  }

  // Beside the one copy of the running task there is no other.
  lemma OnlyCopy(stash: multiset<TaskId>, x: TaskId, away: multiset<TaskId>, running: Option<TaskId>)
    requires stash + multiset{x} + away <= Bag(running)
    ensures stash == multiset{} == away && running == Some(x)
  {
    assert x in stash + multiset{x} + away;
    assert Bag(running) == multiset{x};
    forall y
      ensures y !in stash && y !in away
    {
      assert (stash + multiset{x} + away)[y] <= multiset{x}[y];
    }
  }

  // A stashed task goes out with the poll that comes for it.
  lemma StashKeeps(a: Agent, p: PollId, away: multiset<TaskId>, handed: multiset<TaskId>)
    requires Safe(a, away, handed) && a.stash.Some?
    ensures var o := Out(a.(stash := None), [Answer(p, a.stash)], None);
            Safe(o.agent, away + Handed(o), handed + Handed(o)) && PollsKept(a.waiter, multiset{p}, o)
  {
    hide Balanced;
    SingleAnswer(p, a.stash);
    var o := Out(a.(stash := None), [Answer(p, a.stash)], None);
    assert Held(o.agent) + (away + Handed(o)) == Held(a) + away;
    assert handed + Handed(o) + Held(o.agent) == handed + Held(a);
  }

  lemma DropStash(a: Agent, away: multiset<TaskId>, handed: multiset<TaskId>)
    requires Safe(a, away, handed)
    ensures Safe(a.(stash := None), away, handed)
  {
  }

  /** The stretch that `e` starts leaves the agent safe, and answers or parks every poll it opens. */
  ghost predicate ServedSafely(a: Agent, e: Event, away: multiset<TaskId>, handed: multiset<TaskId>) {
    var o := Serve(a, e);
    && Safe(o.agent, away + Handed(o), handed + Handed(o))
    && PollsKept(a.waiter, Opened(e), o)
  }

  lemma StartKeeps(a: Agent, e: Event, away: multiset<TaskId>, handed: multiset<TaskId>)
    requires e.StartAnalysis? && Safe(a, away, handed)
    ensures ServedSafely(a, e, away, handed)
  {
    hide Safe, PollsKept, Handed, PumpAgent, Accepts;
    QuietSafe(a, away, handed);
    var b := a.(lane := a.lane.(queue := a.lane.queue + [e.item]), books := AcceptBooks(a.books, e.item));
    EnqueueSafe(a, e.item, away, handed);
    PumpKeeps(b, away, handed);
    QuietSafe(b, away, handed);
    AcceptsRecord(a, e.maxPerClient);
  }

  lemma AcceptsRecord(a: Agent, maxPerClient: nat)
    ensures Accepts(a, maxPerClient) ==> a.record.Some?
  {
  }

  lemma EnqueueSafe(a: Agent, item: Item, away: multiset<TaskId>, handed: multiset<TaskId>)
    requires Safe(a, away, handed)
    ensures Safe(a.(lane := a.lane.(queue := a.lane.queue + [item]), books := AcceptBooks(a.books, item)), away, handed)
  {
    hide Balanced;
    AcceptBalanced(a.lane, a.books, item);
  }

  lemma QuietSafe(a: Agent, away: multiset<TaskId>, handed: multiset<TaskId>)
    requires Safe(a, away, handed)
    ensures var o := Quiet(a);
            Safe(a, away + Handed(o), handed + Handed(o)) && PollsKept(a.waiter, multiset{}, o)
  {
  }

  lemma HeartbeatKeeps(a: Agent, e: Event, away: multiset<TaskId>, handed: multiset<TaskId>)
    requires (e.SocketHeartbeat? || e.AgentHeartbeat?) && Safe(a, away, handed)
    ensures ServedSafely(a, e, away, handed)
  {
    hide Safe, PumpIfIdle, PollsKept, Handed;
    var r := Beat(RecordOr(a, Record(None, if e.AgentHeartbeat? then Some(LongPoll) else None)), e.status);
    var r' := Some(if e.AgentHeartbeat? && r.transport.None? then r.(transport := Some(LongPoll)) else r);
    SafeRecord(a, r', a.socketOpen, away, handed);
    PumpIfIdleKeeps(a.(record := r'), away, handed);
  }

  lemma PollKeeps(a: Agent, e: Event, away: multiset<TaskId>, handed: multiset<TaskId>)
    requires e.PollArrives? && Safe(a, away, handed)
    ensures ServedSafely(a, e, away, handed)
  {
    hide Safe, ParkPoll, PollsKept, Handed;
    var r := RecordOr(a, Record(None, Some(LongPoll)));
    var r' := if r.transport.None? then r.(transport := Some(LongPoll)) else r;
    var r'' := if r'.status.None? || r'.status == Some(Offline) then WithStatus(r', Idle) else r';
    var b := a.(record := Some(r''));
    SafeRecord(a, Some(r''), a.socketOpen, away, handed);
    if a.stash.Some? {
      StashKeeps(b, e.poll, away, handed);
    } else {
      ParkKeeps(b, e.poll, away, handed);
    }
  }

  lemma TimerKeeps(a: Agent, e: Event, away: multiset<TaskId>, handed: multiset<TaskId>)
    requires (e.PollCloses? || e.PollTimer?) && Safe(a, away, handed)
    ensures ServedSafely(a, e, away, handed)
  {
    hide Safe, PollsKept, Handed, ResolveWaiter;
    TimerIsWaiters(a, e, away, handed);
    ResolveSafe(a, away, handed);
    QuietSafe(a, away, handed);
    assert away + multiset{} == away && handed + multiset{} == handed;
  }

  // An armed timer is the waiter's own, so firing it and closing the poll come to the same.
  lemma TimerIsWaiters(a: Agent, e: Event, away: multiset<TaskId>, handed: multiset<TaskId>)
    requires (e.PollCloses? || e.PollTimer?) && Safe(a, away, handed)
    ensures Serve(a, e) == (if a.waiter == Some(e.poll) then ResolveWaiter(a, None) else Quiet(a))
  {
  }

  lemma ResultKeeps(a: Agent, e: Event, away: multiset<TaskId>, handed: multiset<TaskId>)
    requires (e.AgentResult? || e.SocketResult?) && Safe(a, away + multiset{e.id}, handed)
    ensures ServedSafely(a, e, away, handed)
  {
    hide Safe, FinishTask, PollsKept, Handed;
    var b := DispatchingToIdle(a);
    SafeRecord(a, b.record, a.socketOpen, away + multiset{e.id}, handed);
    DropStash(b, away + multiset{e.id}, handed);
    FinishKeeps(if e.AgentResult? then b.(stash := None) else b, e.id, away, handed);
  }

  lemma OfflineKeeps(a: Agent, e: Event, away: multiset<TaskId>, handed: multiset<TaskId>)
    requires e.SweepOffline? && Safe(a, away, handed)
    ensures ServedSafely(a, e, away, handed)
  {
    hide Safe, PollsKept, Handed, ResolveWaiter;
    if a.record.Some? {
      var r := Some(WithStatus(a.record.value, Offline));
      SafeRecord(a, r, a.socketOpen, away, handed);
      ResolveSafe(a.(record := r), away, handed);
    }
    QuietSafe(a, away, handed);
    assert away + multiset{} == away && handed + multiset{} == handed;
  }

  lemma SweepKeeps(a: Agent, e: Event, away: multiset<TaskId>, handed: multiset<TaskId>)
    requires e.SweepQueue? && Safe(a, away, handed)
    ensures ServedSafely(a, e, away, handed)
  {
    hide Safe, PollsKept, Handed;
    KeptSafe(a, e.cutoff, away, handed);
    QuietSafe(Serve(a, e).agent, away, handed);
  }

  lemma KeptSafe(a: Agent, cutoff: int, away: multiset<TaskId>, handed: multiset<TaskId>)
    requires Safe(a, away, handed)
    ensures Safe(Serve(a, SweepQueue(cutoff)).agent, away, handed)
  {
    hide Balanced;
    SweepBalanced(a.lane, a.books, cutoff);
  }

  lemma CaughtServed(a: Agent, e: Event, away: multiset<TaskId>, handed: multiset<TaskId>)
    requires e.DispatchCaught? && Safe(a, away, handed)
    ensures ServedSafely(a, e, away, handed)
  {
    hide Safe, PollsKept, Handed;
    if a.rejected.Some? {
      CaughtKeeps(a, away, handed);
    }
    QuietSafe(Serve(a, e).agent, away, handed);
  }

  // Stretches that change the record, or the socket, and nothing else.
  lemma RecordKeeps(a: Agent, e: Event, away: multiset<TaskId>, handed: multiset<TaskId>)
    requires e.SocketRegister? || e.AgentRegister? || e.ClientsRegister? || e.ClientsHeartbeat? || e.SocketClose?
      || e.DispatchWatchdog?
    requires Safe(a, away, handed)
    ensures ServedSafely(a, e, away, handed)
  {
    hide Safe, PollsKept, Handed, Serve, Beat;
    RecordOnly(a, e);
    var b := Serve(a, e).agent;
    SafeRecord(a, b.record, b.socketOpen, away, handed);
    QuietSafe(b, away, handed);
  }

  lemma RecordOnly(a: Agent, e: Event)
    requires e.SocketRegister? || e.AgentRegister? || e.ClientsRegister? || e.ClientsHeartbeat? || e.SocketClose?
      || e.DispatchWatchdog?
    ensures var b := Serve(a, e).agent;
            Serve(a, e) == Quiet(b) && b == a.(record := b.record, socketOpen := b.socketOpen)
  {
    hide Beat;
  }

  /** Every stretch of every handler keeps its agent safe, and answers or parks every poll it opens. */
  lemma ServeKeeps(a: Agent, e: Event, away: multiset<TaskId>, handed: multiset<TaskId>)
    requires Safe(a, away + Returned(e), handed)
    ensures ServedSafely(a, e, away, handed)
  {
    hide Safe, ServedSafely, Serve;
    assert away + multiset{} == away;
    match e
    case StartAnalysis(_, _) => StartKeeps(a, e, away, handed);
    case SocketHeartbeat(_) => HeartbeatKeeps(a, e, away, handed);
    case AgentHeartbeat(_) => HeartbeatKeeps(a, e, away, handed);
    case PollArrives(_) => PollKeeps(a, e, away, handed);
    case PollCloses(_) => TimerKeeps(a, e, away, handed);
    case PollTimer(_) => TimerKeeps(a, e, away, handed);
    case AgentResult(_) => ResultKeeps(a, e, away, handed);
    case SocketResult(_) => ResultKeeps(a, e, away, handed);
    case SweepOffline => OfflineKeeps(a, e, away, handed);
    case SweepQueue(_) => SweepKeeps(a, e, away, handed);
    case DispatchCaught => CaughtServed(a, e, away, handed);
    case _ => RecordKeeps(a, e, away, handed);
  }
}
