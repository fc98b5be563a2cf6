// The server is work-conserving: which stretches dispatch the head of the queue, where the task then is, and what
// every stretch makes of the client's record (server/dashboard/dashboardServer.js, server/dashboard/queue.js).
module Progress {
  import opened Wrappers
  import opened CollectionQueues
  import opened Agents

  // ---- when the head is due ----

  /** A new task is taken for a client whose socket is open, or that polls and is not offline, below the maximum. */
  predicate Takes(a: Agent, max: nat) {
    && a.record.Some? && |a.lane.queue| < max
    && if a.record.value.transport == Some(LongPoll) then a.record.value.status != Some(Offline) else a.socketOpen
  }

  /** The stretch ends by asking for the next task: after every result, and after a new task, a heartbeat or a poll
      by which, or before which, the client is idle. */
  predicate Asks(a: Agent, e: Event) {
    match e
    case AgentResult(_) => true
    case SocketResult(_) => true
    case StartAnalysis(_, max) => Takes(a, max) && a.record.value.status == Some(Idle)
    case SocketHeartbeat(status) => status == Some(Idle) || (status == None && IdleUnless(a, {}))
    case AgentHeartbeat(status) => status == Some(Idle) || (status == None && IdleUnless(a, {}))
    case PollArrives(_) => a.stash == None && IdleUnless(a, {Offline})
    case _ => false
  }

  /** The client is idle, or has no status, or one of these. */
  predicate IdleUnless(a: Agent, others: set<Status>) {
    a.record == None || a.record.value.status == None || a.record.value.status.value in {Idle} + others
  }

  /** No task runs, once this one's result is in or its rejection has been caught. */
  predicate FreeAfter(a: Agent, e: Event) {
    || a.lane.running == None
    || ((e.AgentResult? || e.SocketResult?) && a.lane.running == Some(e.id))
    || (e.DispatchCaught? && a.rejected.Some?)
  }

  function QueueBefore(a: Agent, e: Event): seq<Item> {
    if e.StartAnalysis? && Takes(a, e.maxPerClient) then a.lane.queue + [e.item]
    else if e.SweepQueue? then Kept(a.lane.queue, e.cutoff)
    else a.lane.queue
  }

  predicate Due(a: Agent, e: Event) {
    Asks(a, e) && FreeAfter(a, e) && QueueBefore(a, e) != []
  }

  // ---- the record ----

  /** The record as the message itself leaves it. */
  function RecordNow(a: Agent, e: Event): Option<Record> {
    var status := if a.record == None then None else a.record.value.status;
    var transport := if a.record == None then None else a.record.value.transport;
    var polls := Some(if transport == None then LongPoll else transport.value);
    match e
    case SocketRegister => Some(Record(Some(Idle), Some(WebSocket)))
    case AgentRegister => Some(Record(Some(Idle), Some(LongPoll)))
    case ClientsRegister => Some(Record(Some(if status == None then Idle else status.value), None))
    case SocketHeartbeat(said) => Some(Record(Some(StatusSaid(said, status)), transport))
    case AgentHeartbeat(said) => Some(Record(Some(StatusSaid(said, status)), polls))
    case ClientsHeartbeat(said) => Some(Record(Some(StatusSaid(said, status)), transport))
    case PollArrives(_) =>
      Some(Record(Some(if status == None || status == Some(Offline) then Idle else status.value), polls))
    case AgentResult(_) => Undispatched(a)
    case SocketResult(_) => Undispatched(a)
    case DispatchWatchdog => Undispatched(a)
    case SocketClose => if a.record == None then None else Some(Record(Some(Offline), transport))
    case SweepOffline => if transport == Some(LongPoll) then Some(Record(Some(Offline), transport)) else a.record
    case _ => a.record
  }

  function TransportNow(a: Agent, e: Event): Option<Transport> {
    if RecordNow(a, e).Some? then RecordNow(a, e).value.transport else None
  }

  /** The client's word for its status counts; without one it is idle. */
  function StatusSaid(said: Option<Status>, status: Option<Status>): Status {
    if said.Some? then said.value else if status.Some? then status.value else Idle
  }

  function Undispatched(a: Agent): Option<Record> {
    if a.record.Some? && a.record.value.status == Some(Dispatching)
    then Some(Record(Some(Idle), a.record.value.transport))
    else a.record
  }

  predicate SocketNow(a: Agent, e: Event) { e.SocketRegister? || (a.socketOpen && !e.SocketClose?) }

  // ---- where a dispatched task is ----

  /** Polls and poll clients' heartbeats make a client without a transport one that polls. */
  predicate PollsIn(a: Agent, e: Event) {
    if e.PollArrives? || e.AgentHeartbeat?
    then a.record == None || a.record.value.transport == None || a.record.value.transport == Some(LongPoll)
    else a.record.Some? && a.record.value.transport == Some(LongPoll)
  }

  predicate SocketIn(a: Agent, e: Event) {
    !PollsIn(a, e) && a.socketOpen && (a.record.Some? || e.SocketHeartbeat?)
  }

  function OpenPoll(a: Agent, e: Event): Option<PollId> {
    if e.PollArrives? then Some(e.poll) else a.waiter
  }

  /** A poll that a new one supersedes is answered with nothing. */
  function Superseded(a: Agent, e: Event): seq<Answer> {
    if e.PollArrives? && a.waiter.Some? then [Answer(a.waiter.value, None)] else []
  }

  function StashBefore(a: Agent, e: Event): Option<TaskId> { if e.AgentResult? then None else a.stash }

  /** The task `id` is in the answer to the open poll, or else in the stash, of a client that polls; of another one
      in a frame on its open socket, or else in the rejection. */
  ghost predicate Sent(a: Agent, e: Event, o: Out, id: TaskId) {
    var polls, poll := PollsIn(a, e), OpenPoll(a, e);
    && o.answers == Superseded(a, e) + (if polls && poll.Some? then [Answer(poll.value, Some(id))] else [])
    && o.agent.stash == (if polls && poll == None then Some(id) else StashBefore(a, e))
    && o.frame == (if SocketIn(a, e) then Some(id) else None)
    && o.agent.rejected == (if !polls && !SocketIn(a, e) then Some(id) else a.rejected)
    && o.agent.waiter == (if polls then None else poll)
    && o.agent.record == (if polls || SocketIn(a, e) then Some(Record(Some(Dispatching), TransportNow(a, e)))
                          else RecordNow(a, e))
    && o.agent.socketOpen == SocketNow(a, e)
  }

  /** The parked poll ends: its peer is gone, its timer has fired, or its client has been silent for too long. */
  predicate Ends(a: Agent, e: Event) {
    match e
    case PollCloses(p) => a.waiter == Some(p)
    case PollTimer(p) => p in a.armed
    case SweepOffline => a.record.Some? && a.record.value.transport == Some(LongPoll)
                         && a.record.value.status != Some(Offline)
    case _ => false
  }

  /** What polls other than new ones are answered with: nothing, when they end. */
  function Ended(a: Agent, e: Event): seq<Answer> {
    if !Ends(a, e) then []
    else if e.PollTimer? then [Answer(e.poll, None)]
    else if a.waiter.Some? then [Answer(a.waiter.value, None)]
    else []
  }

  /** Nothing is sent but a stash, to the poll that comes for it. */
  ghost predicate NothingSent(a: Agent, e: Event, o: Out) {
    && Handed(o) == (if e.PollArrives? then Bag(a.stash) else multiset{})
    && o.agent.stash == (if e.PollArrives? then None else StashBefore(a, e))
    && o.agent.rejected == (if e.DispatchCaught? then None else a.rejected) && o.agent.record == RecordNow(a, e)
    && o.agent.socketOpen == SocketNow(a, e)
    && (!e.PollArrives? ==> o.agent.waiter == (if Ends(a, e) then None else a.waiter) && o.answers == Ended(a, e))
    && (e.PollArrives? && a.stash == None ==> o.agent.waiter == Some(e.poll) && o.answers == Superseded(a, e))
    && (e.PollArrives? && a.stash.Some? ==> o.agent.waiter == a.waiter && o.answers == [Answer(e.poll, a.stash)])
  }

  /** If the head is due, it runs and has been sent; if not, nothing is dispatched, and the queue and the slot are as
      the message itself leaves them. */
  ghost predicate Conserves(a: Agent, e: Event) {
    var o, q := Serve(a, e), QueueBefore(a, e);
    if Due(a, e) then o.agent.lane == Lane(q[1..], Some(q[0].analysisId)) && Sent(a, e, o, q[0].analysisId)
    else o.agent.lane == Lane(q, if FreeAfter(a, e) then None else a.lane.running) && NothingSent(a, e, o)
  }

  /** Every stretch is work-conserving. */
  lemma WorkConserving(a: Agent, e: Event)
    ensures Conserves(a, e)
  {
    hide Conserves;
    match e {
      case StartAnalysis(item, max) => StartConserves(a, item, max);
      case SocketHeartbeat(_) => BeatConserves(a, e);
      case AgentHeartbeat(_) => BeatConserves(a, e);
      case PollArrives(_) => PollConserves(a, e);
      case AgentResult(_) => ResultConserves(a, e);
      case SocketResult(_) => ResultConserves(a, e);
      case _ => OtherConserves(a, e);
    }
  }

  // ---- the pump ----

  /** What a pump makes of an agent whose slot is free and whose queue is not empty. */
  ghost predicate Pumped(b: Agent, o: Out) {
    && b.lane.queue != []
    && o.agent.lane == Lane(b.lane.queue[1..], Some(b.lane.queue[0].analysisId))
    && SentFrom(b, o, b.lane.queue[0].analysisId)
  }

  ghost predicate SentFrom(b: Agent, o: Out, id: TaskId) {
    var polls := b.record.Some? && b.record.value.transport == Some(LongPoll);
    var socket := b.record.Some? && !polls && b.socketOpen;
    && o.answers == (if polls && b.waiter.Some? then [Answer(b.waiter.value, Some(id))] else [])
    && o.agent.stash == (if polls && b.waiter == None then Some(id) else b.stash)
    && o.frame == (if socket then Some(id) else None)
    && o.agent.rejected == (if !polls && !socket then Some(id) else b.rejected)
    && o.agent.waiter == (if polls then None else b.waiter) && o.agent.socketOpen == b.socketOpen
    && o.agent.record == (if polls || socket then Some(Record(Some(Dispatching), b.record.value.transport))
                          else b.record)
  }

  lemma PumpSends(b: Agent)
    ensures if b.lane.running == None && b.lane.queue != [] then Pumped(b, PumpAgent(b)) else PumpAgent(b) == Quiet(b)
  {
  }

  lemma PumpIfIdleSends(b: Agent)
    ensures if b.lane.running == None && b.lane.queue != [] && b.record.Some? && b.record.value.status == Some(Idle)
            then Pumped(b, PumpIfIdle(b)) else PumpIfIdle(b) == Quiet(b)
  {
    hide PumpAgent;
    PumpSends(b);
  }

  /** The agent `b` is as the handler of `e` leaves it before it asks for the next task. */
  ghost predicate Ready(a: Agent, e: Event, b: Agent) {
    && b.lane == Lane(QueueBefore(a, e), if FreeAfter(a, e) then None else a.lane.running)
    && b.stash == StashBefore(a, e) && b.rejected == a.rejected && b.waiter == OpenPoll(a, e)
    && b.record == RecordNow(a, e) && b.socketOpen == a.socketOpen
    && (b.record.Some? && b.record.value.transport == Some(LongPoll) <==> PollsIn(a, e))
    && (b.record.Some? && b.record.value.transport != Some(LongPoll) && b.socketOpen <==> SocketIn(a, e))
  }

  lemma ThenPumped(a: Agent, e: Event, b: Agent, p: Out)
    requires Ready(a, e, b) && Serve(a, e) == Out(p.agent, Superseded(a, e) + p.answers, p.frame)
    requires if Due(a, e) then Pumped(b, p) else p == Quiet(b)
    requires e.PollArrives? ==> a.stash == None
    requires !e.DispatchCaught? && !Ends(a, e) && !e.SocketRegister? && !e.SocketClose?
    ensures Conserves(a, e)
  {
    hide Serve, Due, PollsIn, SocketIn, QueueBefore, FreeAfter, Handed, RecordNow;
    AnswersHand(a, e, b);
  }

  lemma AnswersHand(a: Agent, e: Event, b: Agent)
    ensures Superseded(a, e) + [] == Superseded(a, e) && Handed(Out(b, Superseded(a, e) + [], None)) == multiset{}
  {
    SupersededEmpty(Superseded(a, e));
  }

  lemma StartConserves(a: Agent, item: Item, max: nat)
    ensures Conserves(a, StartAnalysis(item, max))
  {
    hide PumpAgent, Handed, Conserves;
    var e := StartAnalysis(item, max);
    var b := if !Accepts(a, max) then a
             else a.(lane := a.lane.(queue := a.lane.queue + [item]), books := AcceptBooks(a.books, item));
    var p := if Due(a, e) then PumpAgent(b) else Quiet(b);
    PumpSends(b);
    assert [] + p.answers == p.answers;
    ThenPumped(a, e, b, p);
  }

  lemma BeatConserves(a: Agent, e: Event)
    requires e.SocketHeartbeat? || e.AgentHeartbeat?
    ensures Conserves(a, e)
  {
    hide PumpIfIdle, Handed, Conserves, Due, Ready, Serve;
    var b := Beaten(a, e);
    BeatReady(a, e);
    PumpIfIdleSends(b);
    assert [] + PumpIfIdle(b).answers == PumpIfIdle(b).answers;
    ThenPumped(a, e, b, PumpIfIdle(b));
  }

  function Beaten(a: Agent, e: Event): (b: Agent)
    requires e.SocketHeartbeat? || e.AgentHeartbeat?
    ensures b.record.Some?
  {
    var r := Beat(RecordOr(a, Record(None, if e.AgentHeartbeat? then Some(LongPoll) else None)), e.status);
    a.(record := Some(if e.AgentHeartbeat? && r.transport.None? then r.(transport := Some(LongPoll)) else r))
  }

  lemma BeatReady(a: Agent, e: Event)
    requires e.SocketHeartbeat? || e.AgentHeartbeat?
    ensures var b := Beaten(a, e);
            && Ready(a, e, b) && Serve(a, e) == PumpIfIdle(b) && Superseded(a, e) == []
            && (Due(a, e) <==> b.lane.running == None && b.lane.queue != [] && b.record.value.status == Some(Idle))
  {
    hide PumpIfIdle;
  }

  lemma PollConserves(a: Agent, e: Event)
    requires e.PollArrives?
    ensures Conserves(a, e)
  {
    hide PumpIfIdle, Handed, Conserves, Due, Ready, Serve;
    if a.stash.Some? {
      StashSent(a, e);
    } else {
      var b := Parking(a, e);
      PollReady(a, e);
      PumpIfIdleSends(b);
      ThenPumped(a, e, b, PumpIfIdle(b));
    }
  }

  function Parking(a: Agent, e: Event): (b: Agent)
    requires e.PollArrives?
    ensures b.record.Some?
  {
    var prior := ResolveWaiter(PolledRecord(a), None).agent;
    prior.(waiter := Some(e.poll), armed := prior.armed + {e.poll})
  }

  lemma PollReady(a: Agent, e: Event)
    requires e.PollArrives? && a.stash == None
    ensures var b := Parking(a, e);
            && Ready(a, e, b)
            && Serve(a, e) ==
               Out(PumpIfIdle(b).agent, Superseded(a, e) + PumpIfIdle(b).answers, PumpIfIdle(b).frame)
            && (Due(a, e) <==> b.lane.running == None && b.lane.queue != [] && b.record.value.status == Some(Idle))
  {
    hide PumpIfIdle;
    assert ResolveWaiter(PolledRecord(a), None).answers == Superseded(a, e);
  }

  function PolledRecord(a: Agent): Agent {
    var r := RecordOr(a, Record(None, Some(LongPoll)));
    var r' := if r.transport.None? then r.(transport := Some(LongPoll)) else r;
    a.(record := Some(if r'.status.None? || r'.status == Some(Offline) then WithStatus(r', Idle) else r'))
  }

  lemma StashSent(a: Agent, e: Event)
    requires e.PollArrives? && a.stash.Some?
    ensures Conserves(a, e)
  {
    hide ParkPoll;
    SingleAnswer(e.poll, a.stash);
  }

  lemma ResultConserves(a: Agent, e: Event)
    requires e.AgentResult? || e.SocketResult?
    ensures Conserves(a, e)
  {
    hide PumpAgent, Handed, Conserves, Due, Ready, Serve;
    var b := Finished(a, e);
    ResultReady(a, e);
    PumpSends(b);
    assert [] + PumpAgent(b).answers == PumpAgent(b).answers;
    ThenPumped(a, e, b, PumpAgent(b));
  }

  function Finished(a: Agent, e: Event): Agent
    requires e.AgentResult? || e.SocketResult?
  {
    var c := DispatchingToIdle(a);
    var d := if e.AgentResult? then c.(stash := None) else c;
    d.(lane := DoneLane(d.lane, e.id),
       books := if d.lane.running == Some(e.id) then FinishBooks(d.books, e.id) else d.books)
  }

  lemma ResultReady(a: Agent, e: Event)
    requires e.AgentResult? || e.SocketResult?
    ensures Ready(a, e, Finished(a, e)) && Serve(a, e) == PumpAgent(Finished(a, e)) && Superseded(a, e) == []
    ensures Due(a, e) <==> Finished(a, e).lane.running == None && Finished(a, e).lane.queue != []
  {
    hide PumpAgent;
  }

  lemma OtherConserves(a: Agent, e: Event)
    requires !e.StartAnalysis? && !e.SocketHeartbeat? && !e.AgentHeartbeat? && !e.PollArrives? && !e.AgentResult?
    requires !e.SocketResult?
    ensures Conserves(a, e)
  {
    hide Conserves;
    if e.PollCloses? || e.PollTimer? || e.SweepOffline? {
      GoneConserves(a, e);
    } else {
      QuietConserves(a, e);
    }
  }

  lemma QuietConserves(a: Agent, e: Event)
    requires e.SocketRegister? || e.AgentRegister? || e.ClientsRegister? || e.ClientsHeartbeat? || e.SocketClose?
      || e.DispatchWatchdog? || e.SweepQueue? || e.DispatchCaught?
    ensures Conserves(a, e)
  {
    hide Handed, Kept, Expired;
    QuietHands(Serve(a, e).agent);
  }

  lemma GoneConserves(a: Agent, e: Event)
    requires e.PollCloses? || e.PollTimer? || e.SweepOffline?
    ensures Conserves(a, e)
  {
    hide Handed, RecordNow, Serve, Ended, Ends;
    GoneRecord(a, e);
    EndedHands(a, e, Serve(a, e).agent);
  }

  lemma EndedHands(a: Agent, e: Event, b: Agent)
    ensures Handed(Out(b, Ended(a, e), None)) == multiset{}
  {
    hide Handed;
    QuietHands(b);
    if Ended(a, e) != [] {
      AnswerHands(b, Ended(a, e)[0].poll, None);
    }
  }

  lemma GoneRecord(a: Agent, e: Event)
    requires e.PollCloses? || e.PollTimer? || e.SweepOffline?
    ensures var o := Serve(a, e);
            && o.agent.record == RecordNow(a, e) && o.agent.socketOpen == a.socketOpen && o.agent.lane == a.lane
            && o.agent.stash == a.stash && o.agent.rejected == a.rejected && o.frame == None
            && o.answers == Ended(a, e) && o.agent.waiter == (if Ends(a, e) then None else a.waiter)
  {
  }

  lemma QuietHands(b: Agent)
    ensures Handed(Quiet(b)) == multiset{}
  {
  }

  lemma AnswerHands(b: Agent, p: PollId, t: Option<TaskId>)
    ensures Handed(Out(b, [Answer(p, t)], None)) == Bag(t)
  {
    SingleAnswer(p, t);
  }

  /** So a dispatch makes exactly one more copy, of the head. */
  lemma OneCopyMore(a: Agent, e: Event)
    requires Due(a, e) && Held(a) == multiset{}
    ensures Handed(Serve(a, e)) + Held(Serve(a, e).agent) == multiset{QueueBefore(a, e)[0].analysisId}
  {
    hide Serve, Due;
    DueQueue(a, e);
    WorkConserving(a, e);
    NothingHeld(a);
    var o, id := Serve(a, e), QueueBefore(a, e)[0].analysisId;
    if PollsIn(a, e) && OpenPoll(a, e).Some? {
      SentAnswers(Superseded(a, e), OpenPoll(a, e).value, id);
    } else {
      SupersededEmpty(Superseded(a, e));
    }
  }

  lemma DueQueue(a: Agent, e: Event)
    requires Due(a, e)
    ensures QueueBefore(a, e) != []
  {
  }

  lemma NothingHeld(a: Agent)
    requires Held(a) == multiset{}
    ensures a.stash == None && a.rejected == None
  {
    assert Bag(a.stash) <= Held(a) && Bag(a.rejected) <= Held(a);
  }

  lemma SentAnswers(before: seq<Answer>, p: PollId, id: TaskId)
    requires |before| <= 1 && (before != [] ==> before[0].task == None)
    ensures Tasks(before + [Answer(p, Some(id))]) == multiset{id}
  {
    AnswersAppend(before, [Answer(p, Some(id))]);
    SingleAnswer(p, Some(id));
    SupersededEmpty(before);
  }

  lemma SupersededEmpty(before: seq<Answer>)
    requires |before| <= 1 && (before != [] ==> before[0].task == None)
    ensures Tasks(before) == multiset{} == Tasks(before + [])
  {
    assert before + [] == before;
    if before != [] {
      assert before == [Answer(before[0].poll, None)];
      SingleAnswer(before[0].poll, None);
    }
  }
}
