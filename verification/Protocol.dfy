// The task dispatch protocol of one agent as interleaved atomic steps: server stretches,
// client steps, and a network that reorders and loses messages but does not copy them.
module Protocol {
  import opened Wrappers
  import opened CollectionQueues
  import opened Agents
  import opened TaskRunners

  datatype Client = Client(
    slot: Option<TaskId>,
    reporting: multiset<TaskId>,  // slot already cleared, result not yet sent
    outbox: multiset<TaskId>,     // results waiting for the session loop to post them
    poll: Option<PollId>)         // the poll the session loop waits for

  datatype Network = Network(
    polls: set<PollId>,           // poll requests on the way
    answers: seq<Answer>,         // poll responses on the way, in no particular order
    frames: multiset<TaskId>,     // NEW_TASK frames on the way
    results: multiset<TaskId>)    // task results on the way

  datatype History = History(
    nextPoll: PollId,
    arrived: multiset<PollId>,    // polls the server received
    answered: multiset<PollId>,   // polls the server answered
    handed: multiset<TaskId>,     // tasks the server handed out
    busy: nat,                    // tasks the client rejected because another was running
    duplicates: nat)              // tasks the client dropped because they were running already

  /** `MAX_QUEUE_PER_CLIENT` and `QUEUE_ITEM_TTL_MS`. */
  datatype Limits = Limits(maxPerClient: nat, itemTtlMs: int)

  datatype System = System(
    agent: Agent, client: Client, net: Network, history: History,
    clock: int,                   // the server's `Date.now`
    limits: Limits)

  datatype Step =
    | Server(e: Event)
    | ClockReads(now: int)
    | ClientPolls
    | TakeAnswer(i: nat)
    | TakeFrame(id: TaskId)
    | TaskEnds
    | Report(id: TaskId)
    | Post(id: TaskId)
    | LosePoll(poll: PollId)
    | LoseAnswer(i: nat)
    | LoseFrame(id: TaskId)
    | LoseResult(id: TaskId)
    | LoseReport(id: TaskId)
    | ClientRestarts

  /** The copies of tasks outside the server. */
  function Away(s: System): multiset<TaskId> {
    Tasks(s.net.answers) + s.net.frames + s.net.results + Bag(s.client.slot) + s.client.reporting + s.client.outbox
  }

  /** What a server event needs: the message it consumes to be on its way, for a new task an id that is nowhere in use
      and the time of the clock, and the configured limits. */
  predicate EventEnabled(s: System, e: Event) {
    match e
    case StartAnalysis(item, maxPerClient) =>
      && item.analysisId !in Ids(s.agent.books.accepted) + Away(s)
      && item.enqueuedAt == s.clock && maxPerClient == s.limits.maxPerClient
    case SweepQueue(cutoff) => cutoff == s.clock - s.limits.itemTtlMs
    case PollArrives(p) => p in s.net.polls
    case AgentResult(id) => id in s.net.results
    case SocketResult(id) => id in s.net.results
    case _ => true
  }

  predicate Enabled(s: System, step: Step) {
    match step
    case Server(e) => EventEnabled(s, e)
    case ClockReads(_) => true
    case ClientPolls => true
    case TakeAnswer(i) => i < |s.net.answers|
    case TakeFrame(id) => id in s.net.frames
    case TaskEnds => s.client.slot.Some?
    case Report(id) => id in s.client.reporting
    case Post(id) => id in s.client.outbox
    case LosePoll(p) => p in s.net.polls
    case LoseAnswer(i) => i < |s.net.answers|
    case LoseFrame(id) => id in s.net.frames
    case LoseResult(id) => id in s.net.results
    case LoseReport(id) => id in s.client.outbox
    case ClientRestarts => true
  }

  function Without(answers: seq<Answer>, i: nat): seq<Answer>
    requires i < |answers|
  {
    answers[..i] + answers[i + 1..]
  }

  function ServerStep(s: System, e: Event): System {
    var o := Serve(s.agent, e);
    s.(agent := o.agent,
       net := Network(
         s.net.polls - (if e.PollArrives? then {e.poll} else {}),
         s.net.answers + o.answers,
         s.net.frames + Bag(o.frame),
         s.net.results - Returned(e)),
       history := s.history.(
         arrived := s.history.arrived + Opened(e),
         answered := s.history.answered + Polls(o.answers),
         handed := s.history.handed + Handed(o)))
  }

  function Give(s: System, id: TaskId): System {
    var r := Receive(s.client.slot, id);
    s.(client := s.client.(slot := r.slot, outbox := s.client.outbox + r.reported),
       history := s.history.(
         busy := s.history.busy + (if r.admission.Busy? then 1 else 0),
         duplicates := s.history.duplicates + (if r.admission.Duplicate? then 1 else 0)))
  }

  function Apply(s: System, step: Step): System
    requires Enabled(s, step)
  {
    match step
    case Server(e) => ServerStep(s, e)
    case ClockReads(now) => s.(clock := now)
    case ClientPolls =>
      // a poll that the client gave up on may still be parked at the server
      s.(client := s.client.(poll := Some(s.history.nextPoll)),
         net := s.net.(polls := s.net.polls + {s.history.nextPoll}),
         history := s.history.(nextPoll := s.history.nextPoll + 1))
    case TakeAnswer(i) =>
      var answer := s.net.answers[i];
      var s' := s.(net := s.net.(answers := Without(s.net.answers, i)));
      if s.client.poll != Some(answer.poll) then s'
      else
        var s'' := s'.(client := s'.client.(poll := None));
        if answer.task.Some? then Give(s'', answer.task.value) else s''
    case TakeFrame(id) => Give(s.(net := s.net.(frames := s.net.frames - multiset{id})), id)
    case TaskEnds =>
      s.(client := s.client.(slot := None, reporting := s.client.reporting + Bag(s.client.slot)))
    case Report(id) =>
      s.(client := s.client.(reporting := s.client.reporting - multiset{id}, outbox := s.client.outbox + multiset{id}))
    case Post(id) =>
      s.(client := s.client.(outbox := s.client.outbox - multiset{id}),
         net := s.net.(results := s.net.results + multiset{id}))
    case LosePoll(p) => s.(net := s.net.(polls := s.net.polls - {p}))
    case LoseAnswer(i) => s.(net := s.net.(answers := Without(s.net.answers, i)))
    case LoseFrame(id) => s.(net := s.net.(frames := s.net.frames - multiset{id}))
    case LoseResult(id) => s.(net := s.net.(results := s.net.results - multiset{id}))
    case LoseReport(id) => s.(client := s.client.(outbox := s.client.outbox - multiset{id}))
    case ClientRestarts => s.(client := Client(None, multiset{}, multiset{}, None))
  }

  /** A server as it boots: with the record and the waiting items it restored from disk, and nothing in flight. */
  ghost predicate Boots(s: System) {
    && s.agent == Agent(
         s.agent.record, Lane(s.agent.lane.queue, None), RestoredBooks(s.agent.lane.queue), None, {}, None, false, None)
    && Unique(Ids(s.agent.lane.queue))
    && s.net == Network({}, [], multiset{}, multiset{})
    && s.history == History(0, multiset{}, multiset{}, multiset{}, 0, 0)
  }

  /** And a client that is not at work then, and has nothing to report. */
  ghost predicate Init(s: System) {
    Boots(s) && s.client == Client(None, multiset{}, multiset{}, None)
  }

  ghost predicate Next(s: System, s': System) {
    exists step :: Enabled(s, step) && s' == Apply(s, step)
  }

  /** A run from any state. */
  ghost predicate RunFrom(s: System, trace: seq<System>) {
    && trace != [] && trace[0] == s
    && forall i :: 0 < i < |trace| ==> Next(trace[i - 1], trace[i])
  }

  ghost predicate Run(trace: seq<System>) {
    trace != [] && Init(trace[0]) && RunFrom(trace[0], trace)
  }

  // ---- the invariant ----

  ghost predicate Unique<T(!new)>(m: multiset<T>) {
    forall x :: m[x] <= 1
  }

  /** Poll ids on the way are new to the server, and no poll arrives twice. */
  ghost predicate FreshPolls(arrived: multiset<PollId>, polls: set<PollId>, next: PollId) {
    && Unique(arrived)
    && (forall p :: p in polls ==> p < next && p !in arrived)
    && (forall p :: p in arrived ==> p < next)
  }

  ghost predicate PollsAccounted(s: System) {
    && s.history.answered + Bag(s.agent.waiter) == s.history.arrived
    && FreshPolls(s.history.arrived, s.net.polls, s.history.nextPoll)
  }

  ghost predicate Inv(s: System) {
    && Safe(s.agent, Away(s), s.history.handed)
    && Unique(Ids(s.agent.books.accepted))
    && PollsAccounted(s)
    && s.history.busy == 0 && s.history.duplicates == 0
  }

  lemma InitInv(s: System)
    requires Init(s)
    ensures Inv(s)
  {
    RestoredBalanced(s.agent.lane.queue);
  }

  // ---- preservation, one kind of step at a time ----

  lemma {:induction false} TasksWithout(answers: seq<Answer>, i: nat)
    requires i < |answers|
    ensures Tasks(answers) == Tasks(Without(answers, i)) + Bag(answers[i].task)
  {
    if i == 0 {
      assert Without(answers, 0) == answers[1..];
    } else {
      assert Without(answers, i) == [answers[0]] + Without(answers[1..], i - 1);
      TasksWithout(answers[1..], i - 1);
    }
  }

  // Losing copies keeps an agent safe.
  lemma FewerAway(a: Agent, away: multiset<TaskId>, less: multiset<TaskId>, handed: multiset<TaskId>)
    requires Safe(a, away, handed) && less <= away
    ensures Safe(a, less, handed)
  {
  }

  /** The queue before a stretch takes anything off its head. */
  function Grown(a: Agent, e: Event): seq<Item> {
    match e
    case StartAnalysis(item, maxPerClient) => if Accepts(a, maxPerClient) then a.lane.queue + [item] else a.lane.queue
    case SweepQueue(cutoff) => Kept(a.lane.queue, cutoff)
    case _ => a.lane.queue
  }

  /** What a stretch does to the queue and to the accepted items: it adds its own new task at the end, or
      drops expired items, and then dispatches at most the head. */
  ghost predicate QueueMoved(a: Agent, e: Event, b: Agent) {
    && (b.lane.queue == Grown(a, e) || (Grown(a, e) != [] && b.lane.queue == Grown(a, e)[1..]))
    && b.books.accepted ==
       if e.StartAnalysis? && Accepts(a, e.maxPerClient) then a.books.accepted + [e.item] else a.books.accepted
  }

  lemma QueueMoves(a: Agent, e: Event)
    ensures QueueMoved(a, e, Serve(a, e).agent)
  {
    hide Expired, Kept, PumpAgent, ResolveWaiter, Accepts;
    match e {
      case StartAnalysis(item, maxPerClient) =>
        AcceptsRecord(a, maxPerClient);
        PumpMoves(a.(lane := a.lane.(queue := a.lane.queue + [item]), books := AcceptBooks(a.books, item)));
      case SocketHeartbeat(status) => PumpMoves(Recorded(a, Beat(RecordOr(a, Record(None, None)), status)));
      case AgentHeartbeat(status) =>
        var r := Beat(RecordOr(a, Record(None, Some(LongPoll))), status);
        PumpMoves(Recorded(a, if r.transport.None? then r.(transport := Some(LongPoll)) else r));
      case PollArrives(p) => ArrivalMoves(a, p);
      case AgentResult(id) => FinishMoves(DispatchingToIdle(a).(stash := None), id);
      case SocketResult(id) => FinishMoves(DispatchingToIdle(a), id);
      case PollCloses(_) => ResolveLane(a, None);
      case SweepOffline => if a.record.Some? { ResolveLane(Recorded(a, WithStatus(a.record.value, Offline)), None); }
      case _ =>
    }
  }

  function Recorded(a: Agent, r: Record): Agent { a.(record := Some(r)) }

  lemma PumpMoves(a: Agent)
    ensures var b := PumpAgent(a).agent;
            && b.books.accepted == a.books.accepted
            && (b.lane.queue == a.lane.queue || (a.lane.queue != [] && b.lane.queue == a.lane.queue[1..]))
  {
  }

  lemma ResolveLane(a: Agent, t: Option<TaskId>)
    ensures ResolveWaiter(a, t).agent.lane == a.lane && ResolveWaiter(a, t).agent.books == a.books
  {
  }

  lemma FinishMoves(a: Agent, id: TaskId)
    ensures var b := FinishTask(a, id).agent;
            && b.books.accepted == a.books.accepted
            && (b.lane.queue == a.lane.queue || (a.lane.queue != [] && b.lane.queue == a.lane.queue[1..]))
  {
    hide PumpAgent;
    PumpMoves(a.(
      lane := DoneLane(a.lane, id),
      books := if a.lane.running == Some(id) then FinishBooks(a.books, id) else a.books));
  }

  lemma ArrivalMoves(a: Agent, p: PollId)
    ensures QueueMoved(a, PollArrives(p), Serve(a, PollArrives(p)).agent)
  {
    hide PumpAgent, ResolveWaiter;
    var r := RecordOr(a, Record(None, Some(LongPoll)));
    var r' := if r.transport.None? then r.(transport := Some(LongPoll)) else r;
    var r'' := if r'.status.None? || r'.status == Some(Offline) then WithStatus(r', Idle) else r';
    var b := Recorded(a, r'');
    ResolveLane(b, None);
    var prior := ResolveWaiter(b, None).agent;
    PumpMoves(prior.(waiter := Some(p), armed := prior.armed + {p}));
  }

  lemma ServerInv(s: System, e: Event)
    requires Inv(s) && EventEnabled(s, e)
    ensures Inv(ServerStep(s, e))
  {
    hide Safe, Serve, ServedSafely, PollsAccounted, Away, Ids, EventEnabled;
    ReturnedAway(s, e);
    ServeKeeps(s.agent, e, Away(s) - Returned(e), s.history.handed);
    ServedInv(s, e);
  }

  lemma ServedInv(s: System, e: Event)
    requires EventEnabled(s, e) && ServedSafely(s.agent, e, Away(s) - Returned(e), s.history.handed)
    requires Unique(Ids(s.agent.books.accepted)) && PollsAccounted(s)
    requires s.history.busy == 0 && s.history.duplicates == 0
    ensures Inv(ServerStep(s, e))
  {
    hide Safe, Serve, Tasks, Polls, PollsKept, Ids, Away, EventEnabled;
    AwayAfter(s, e);
    AcceptedUnique(s, e);
    PollsAfter(s, e);
  }

  lemma ReturnedAway(s: System, e: Event)
    requires EventEnabled(s, e)
    ensures Away(s) - Returned(e) + Returned(e) == Away(s)
  {
    hide Tasks;
  }

  lemma AwayAfter(s: System, e: Event)
    requires EventEnabled(s, e)
    ensures Away(ServerStep(s, e)) == Away(s) - Returned(e) + Handed(Serve(s.agent, e))
  {
    hide Serve;
    var o := Serve(s.agent, e);
    AnswersAppend(s.net.answers, o.answers);
    hide Tasks;
    assert Away(ServerStep(s, e)) ==
      Tasks(s.net.answers) + Tasks(o.answers) + (s.net.frames + Bag(o.frame)) + (s.net.results - Returned(e))
      + Bag(s.client.slot) + s.client.reporting + s.client.outbox;
  }

  lemma AcceptedUnique(s: System, e: Event)
    requires Unique(Ids(s.agent.books.accepted)) && EventEnabled(s, e)
    ensures Unique(Ids(Serve(s.agent, e).agent.books.accepted))
  {
    hide Serve, Ids, Grown, Accepts;
    QueueMoves(s.agent, e);
    if e.StartAnalysis? {
      IdsSnoc(s.agent.books.accepted, e.item);
    }
  }

  lemma PollsAfter(s: System, e: Event)
    requires PollsAccounted(s) && EventEnabled(s, e)
    requires PollsKept(s.agent.waiter, Opened(e), Serve(s.agent, e))
    ensures PollsAccounted(ServerStep(s, e))
  {
    var o := Serve(s.agent, e);
    AnsweredAfter(s.history.answered, Polls(o.answers), Bag(o.agent.waiter), Bag(s.agent.waiter), Opened(e));
    hide Serve, Polls, PollsKept, EventEnabled, FreshPolls;
    if e.PollArrives? {
      PollEnabled(s, e);
      FreshAfter(s.history.arrived, s.net.polls, s.history.nextPoll, e.poll);
    } else {
      assert s.history.arrived + multiset{} == s.history.arrived && s.net.polls - {} == s.net.polls;
    }
  }

  lemma FreshAfter(arrived: multiset<PollId>, polls: set<PollId>, next: PollId, p: PollId)
    requires FreshPolls(arrived, polls, next) && p in polls
    ensures FreshPolls(arrived + multiset{p}, polls - {p}, next)
  {
  }

  lemma PollEnabled(s: System, e: Event)
    requires EventEnabled(s, e) && e.PollArrives?
    ensures e.poll in s.net.polls
  {
  }

  lemma AnsweredAfter(answered: multiset<PollId>, now: multiset<PollId>, waiter': multiset<PollId>,
                      waiter: multiset<PollId>, arriving: multiset<PollId>)
    requires now + waiter' == waiter + arriving
    ensures answered + now + waiter' == answered + waiter + arriving
  {
    assert answered + now + waiter' == answered + (now + waiter');
  }

  /** The client never has a task when it receives one, so it rejects none and drops none. */
  lemma GiveInv(s: System, id: TaskId, before: System)
    requires Inv(before) && Away(before) == Away(s) + multiset{id}
    requires s.agent == before.agent && s.history == before.history && s.net.polls == before.net.polls
    ensures Inv(Give(s, id))
    ensures Receive(s.client.slot, id).admission.Admitted?
  {
  }

  // A client step or a loss moves copies about, and makes none.
  lemma ClientAway(s: System, step: Step)
    requires Enabled(s, step) && !step.Server? && !step.TakeAnswer? && !step.TakeFrame?
    ensures Away(Apply(s, step)) <= Away(s)
  {
    hide Apply, Away, Tasks;
    match step
    case ClockReads(_) => PolledAway(s, step);
    case ClientPolls => PolledAway(s, step);
    case LosePoll(_) => PolledAway(s, step);
    case TaskEnds => EndAway(s);
    case Report(id) => ReportAway(s, id);
    case Post(id) => PostAway(s, id);
    case LoseAnswer(i) => LoseAnswerAway(s, i);
    case LoseFrame(id) => LoseFrameAway(s, id);
    case LoseResult(id) => LoseResultAway(s, id);
    case LoseReport(id) => LoseReportAway(s, id);
    case ClientRestarts => RestartAway(s);
  }

  /** The copies that the client still has to report, or that it did. */
  function Claimed(s: System): multiset<TaskId> {
    Bag(s.client.slot) + s.client.reporting + s.client.outbox + s.net.results
  }

  lemma FewerCopies(s: System, t: System)
    requires Tasks(t.net.answers) <= Tasks(s.net.answers) && t.net.frames <= s.net.frames && Claimed(t) <= Claimed(s)
    ensures Away(t) <= Away(s)
  {
    hide Tasks, Claimed;
    AwayIs(s);
    AwayIs(t);
  }

  lemma AwayIs(s: System)
    ensures Away(s) == Tasks(s.net.answers) + s.net.frames + Claimed(s)
  {
    hide Tasks;
    assert Tasks(s.net.answers) + s.net.frames + s.net.results + Bag(s.client.slot) + s.client.reporting
           + s.client.outbox == Tasks(s.net.answers) + s.net.frames + Claimed(s);
  }

  lemma PolledAway(s: System, step: Step)
    requires Enabled(s, step) && (step.ClockReads? || step.ClientPolls? || step.LosePoll?)
    ensures Away(Apply(s, step)) == Away(s)
  {
    hide Tasks;
  }

  lemma EndAway(s: System)
    requires s.client.slot.Some?
    ensures Away(Apply(s, TaskEnds)) <= Away(s)
  {
    hide Away, Tasks;
    assert multiset{} + (s.client.reporting + Bag(s.client.slot)) + s.client.outbox + s.net.results == Claimed(s);
    FewerCopies(s, Apply(s, TaskEnds));
  }

  lemma ReportAway(s: System, id: TaskId)
    requires id in s.client.reporting
    ensures Away(Apply(s, Report(id))) <= Away(s)
  {
    hide Away, Tasks;
    assert Bag(s.client.slot) + (s.client.reporting - multiset{id}) + (s.client.outbox + multiset{id}) + s.net.results
           == Claimed(s);
    FewerCopies(s, Apply(s, Report(id)));
  }

  lemma PostAway(s: System, id: TaskId)
    requires id in s.client.outbox
    ensures Away(Apply(s, Post(id))) <= Away(s)
  {
    hide Away, Tasks;
    assert Bag(s.client.slot) + s.client.reporting + (s.client.outbox - multiset{id}) + (s.net.results + multiset{id})
           == Claimed(s);
    FewerCopies(s, Apply(s, Post(id)));
  }

  lemma ClaimedShrinks(s: System, t: System)
    requires Bag(t.client.slot) <= Bag(s.client.slot) && t.client.reporting <= s.client.reporting
    requires t.client.outbox <= s.client.outbox && t.net.results <= s.net.results
    ensures Claimed(t) <= Claimed(s)
  {
    hide Bag;
    SumShrinks(Bag(s.client.slot), s.client.reporting, Bag(t.client.slot), t.client.reporting);
    SumShrinks(s.client.outbox, s.net.results, t.client.outbox, t.net.results);
    assert Claimed(s) == Bag(s.client.slot) + s.client.reporting + (s.client.outbox + s.net.results);
    assert Claimed(t) == Bag(t.client.slot) + t.client.reporting + (t.client.outbox + t.net.results);
    SumShrinks(Bag(s.client.slot) + s.client.reporting, s.client.outbox + s.net.results,
      Bag(t.client.slot) + t.client.reporting, t.client.outbox + t.net.results);
  }

  lemma SumShrinks(a: multiset<TaskId>, b: multiset<TaskId>, a': multiset<TaskId>, b': multiset<TaskId>)
    requires a' <= a && b' <= b
    ensures a' + b' <= a + b
  {
  }

  lemma LoseAnswerAway(s: System, i: nat)
    requires i < |s.net.answers|
    ensures Away(Apply(s, LoseAnswer(i))) <= Away(s)
  {
    hide Away, Tasks, Claimed, Without;
    TasksWithout(s.net.answers, i);
    var t := Apply(s, LoseAnswer(i));
    ClaimedShrinks(s, t);
    FewerCopies(s, t);
  }

  lemma LoseFrameAway(s: System, id: TaskId)
    requires id in s.net.frames
    ensures Away(Apply(s, LoseFrame(id))) <= Away(s)
  {
    hide Away, Tasks, Claimed, Bag;
    var t := Apply(s, LoseFrame(id));
    ClaimedShrinks(s, t);
    FewerCopies(s, t);
  }

  lemma LoseResultAway(s: System, id: TaskId)
    requires id in s.net.results
    ensures Away(Apply(s, LoseResult(id))) <= Away(s)
  {
    hide Away, Tasks, Claimed, Bag;
    var t := Apply(s, LoseResult(id));
    ClaimedShrinks(s, t);
    FewerCopies(s, t);
  }

  lemma LoseReportAway(s: System, id: TaskId)
    requires id in s.client.outbox
    ensures Away(Apply(s, LoseReport(id))) <= Away(s)
  {
    hide Away, Tasks, Claimed, Bag;
    var t := Apply(s, LoseReport(id));
    ClaimedShrinks(s, t);
    FewerCopies(s, t);
  }

  lemma RestartAway(s: System)
    ensures Away(Apply(s, ClientRestarts)) <= Away(s)
  {
    hide Away, Tasks, Claimed;
    var t := Apply(s, ClientRestarts);
    ClaimedShrinks(s, t);
    FewerCopies(s, t);
  }

  lemma ClientPolled(s: System, step: Step)
    requires PollsAccounted(s) && Enabled(s, step) && !step.Server? && !step.TakeAnswer? && !step.TakeFrame?
    ensures var s' := Apply(s, step);
            && PollsAccounted(s') && s'.agent == s.agent && s'.history.handed == s.history.handed
            && s'.history.busy == s.history.busy && s'.history.duplicates == s.history.duplicates
  {
  }

  lemma ClientInv(s: System, step: Step)
    requires Inv(s) && Enabled(s, step) && !step.Server? && !step.TakeAnswer? && !step.TakeFrame?
    ensures Inv(Apply(s, step))
  {
    hide Safe, Apply, PollsAccounted, Away;
    ClientAway(s, step);
    ClientPolled(s, step);
    FewerAway(s.agent, Away(s), Away(Apply(s, step)), s.history.handed);
  }

  lemma AnswerInv(s: System, i: nat)
    requires Inv(s) && i < |s.net.answers|
    ensures Inv(Apply(s, TakeAnswer(i)))
  {
    hide Safe, Tasks, Ids, Give;
    var answer := s.net.answers[i];
    TasksWithout(s.net.answers, i);
    var s' := s.(net := s.net.(answers := Without(s.net.answers, i)));
    var s'' := s'.(client := s'.client.(poll := None));
    assert Away(s') == Away(s'');
    assert Away(s) == Away(s') + Bag(answer.task);
    if s.client.poll == Some(answer.poll) && answer.task.Some? {
      GiveInv(s'', answer.task.value, s);
    } else {
      FewerAway(s.agent, Away(s), Away(s'), s.history.handed);
    }
  }

  lemma FrameInv(s: System, id: TaskId)
    requires Inv(s) && id in s.net.frames
    ensures Inv(Apply(s, TakeFrame(id)))
  {
    hide Safe, Tasks, Ids, Give;
    var s' := s.(net := s.net.(frames := s.net.frames - multiset{id}));
    assert Away(s) == Away(s') + multiset{id};
    GiveInv(s', id, s);
  }

  /** Every step keeps the invariant. */
  lemma NextInv(s: System, s': System)
    requires Inv(s) && Next(s, s')
    ensures Inv(s')
  {
    hide Inv;
    var step :| Enabled(s, step) && s' == Apply(s, step);
    match step
    case Server(e) => ServerInv(s, e);
    case TakeAnswer(i) => AnswerInv(s, i);
    case TakeFrame(id) => FrameInv(s, id);
    case _ => ClientInv(s, step);
  }

  lemma {:induction false} RunInv(trace: seq<System>, i: nat)
    requires Run(trace) && i < |trace|
    ensures Inv(trace[i])
  {
    if i == 0 {
      InitInv(trace[0]);
    } else {
      RunInv(trace, i - 1);
      NextInv(trace[i - 1], trace[i]);
    }
  }

  // ---- what holds in every state of every run ----

  /** Mutual exclusion, end to end: over the stash, a pending dispatch failure, the network, the
      client's slot and its unreported results there is at most one copy of a task, and it is the
      task the queue has as running. */
  lemma OneCopyOfOneTask(trace: seq<System>, i: nat)
    requires Run(trace) && i < |trace|
    ensures var s := trace[i];
            && |Held(s.agent) + Away(s)| <= 1
            && forall x :: x in Held(s.agent) + Away(s) ==> s.agent.lane.running == Some(x)
  {
    RunInv(trace, i);
    var s := trace[i];
    MultisetBound(Held(s.agent) + Away(s), s.agent.lane.running);
  }

  lemma MultisetBound(m: multiset<TaskId>, running: Option<TaskId>)
    requires m <= Bag(running)
    ensures |m| <= 1 && forall x :: x in m ==> running == Some(x)
  {
    if running.Some? {
      assert Bag(running) == m + (Bag(running) - m);
    } else {
      assert m == multiset{};
    }
  }

  /** The client's Busy and Duplicate rejections are unreachable. */
  lemma NeverBusy(trace: seq<System>, i: nat)
    requires Run(trace) && i < |trace|
    ensures trace[i].history.busy == 0 && trace[i].history.duplicates == 0
  {
    RunInv(trace, i);
  }

  /** Whenever a task reaches the client that waits for it, the client runs nothing. */
  lemma FreeOnArrival(trace: seq<System>, i: nat, k: nat)
    requires Run(trace) && i < |trace| && k < |trace[i].net.answers| && trace[i].net.answers[k].task.Some?
    ensures trace[i].client.slot == None && trace[i].agent.stash == None
  {
    RunInv(trace, i);
    var s := trace[i];
    TasksWithout(s.net.answers, k);
    OneCopyOfOneTask(trace, i);
    var id := s.net.answers[k].task.value;
    assert id in Tasks(s.net.answers);
    var rest := Held(s.agent) + Away(s) - multiset{id};
    assert Held(s.agent) + Away(s) == rest + multiset{id};
    assert Bag(s.client.slot) + Bag(s.agent.stash) <= rest;
    NothingLeft(Bag(s.client.slot) + Bag(s.agent.stash), rest, id);
  }

  lemma NothingLeft(m: multiset<TaskId>, rest: multiset<TaskId>, id: TaskId)
    requires m <= rest && |rest + multiset{id}| <= 1
    ensures m == multiset{}
  {
  }

  /** No lost wakeup: a poll never waits while a task is stashed, a stash is the running task's, and
      the armed timers are exactly the parked poll's. */
  lemma NoLostWakeup(trace: seq<System>, i: nat)
    requires Run(trace) && i < |trace|
    ensures var a := trace[i].agent;
            && !(a.waiter.Some? && a.stash.Some?)
            && (a.stash.Some? ==> a.stash == a.lane.running)
            && (forall p :: p in a.armed <==> a.waiter == Some(p))
  {
    RunInv(trace, i);
    var a := trace[i].agent;
    if a.stash.Some? {
      assert a.stash.value in Held(a) + Away(trace[i]);
    }
  }

  /** Every task is handed out at most once, and a stashed one not yet. */
  lemma HandedOnce(trace: seq<System>, i: nat)
    requires Run(trace) && i < |trace|
    ensures Unique(trace[i].history.handed)
    ensures trace[i].agent.stash.Some? ==> trace[i].agent.stash.value !in trace[i].history.handed
  {
    RunInv(trace, i);
    var s := trace[i];
    hide Ids;
    forall x
      ensures s.history.handed[x] + Held(s.agent)[x] <= 1
    {
      assert (s.history.handed + Held(s.agent))[x] <= Settled(s.agent)[x] <= Ids(s.agent.books.accepted)[x];
    }
  }

  /** Every poll that arrived is the parked one or was answered, exactly once. */
  lemma PollsAnsweredOnce(trace: seq<System>, i: nat, p: PollId)
    requires Run(trace) && i < |trace| && p in trace[i].history.arrived
    ensures var s := trace[i];
            && s.history.answered[p] <= 1
            && (s.history.answered[p] == 0 <==> s.agent.waiter == Some(p))
  {
    RunInv(trace, i);
    var s := trace[i];
    assert (s.history.answered + Bag(s.agent.waiter))[p] == 1;
  }

  /** Queue conservation over whole runs: every accepted id is in exactly one of queued, running,
      finished, dispatch-failed and expired, and dispatch keeps the order of acceptance. */
  lemma EveryTaskAccounted(trace: seq<System>, i: nat, id: TaskId)
    requires Run(trace) && i < |trace| && id in Ids(trace[i].agent.books.accepted)
    ensures var a := trace[i].agent;
            && Ids(a.lane.queue)[id] + Bag(a.lane.running)[id] + a.books.finished[id] + a.books.failed[id]
               + a.books.expired[id] == 1
            && Subsequence(a.books.dispatched + a.lane.queue, a.books.accepted)
  {
    RunInv(trace, i);
    var a := trace[i].agent;
    assert Ids(a.books.accepted)[id] == 1;
  }

  // ---- the queue over whole runs ----

  ghost predicate QueueByTime(s: System) { ByTime(s.agent.lane.queue, s.clock) }

  /** A clock that never goes back. */
  ghost predicate Monotone(trace: seq<System>) {
    forall i :: 0 < i < |trace| ==> trace[i - 1].clock <= trace[i].clock
  }

  lemma KeptByTime(q: seq<Item>, cutoff: int, clock: int)
    requires ByTime(q, clock)
    ensures ByTime(Kept(q, cutoff), clock)
  {
    var n := SweepTakesPrefix(q, cutoff, clock);
  }

  lemma GrownByTime(a: Agent, e: Event, clock: int)
    requires ByTime(a.lane.queue, clock) && (e.StartAnalysis? ==> e.item.enqueuedAt == clock)
    ensures ByTime(Grown(a, e), clock)
  {
    hide Kept, ByTime, Accepts;
    if e.StartAnalysis? {
      EnqueuedByTime(a.lane.queue, clock, e.item, clock);
    } else if e.SweepQueue? {
      KeptByTime(a.lane.queue, e.cutoff, clock);
    }
  }

  // A step of the client, the network or the clock leaves the server's agent as it is.
  lemma OtherStep(s: System, step: Step)
    requires Enabled(s, step) && !step.Server?
    ensures Apply(s, step).agent == s.agent && Apply(s, step).limits == s.limits
  {
  }

  lemma ServerApplied(s: System, e: Event)
    requires EventEnabled(s, e)
    ensures var s', o := Apply(s, Server(e)), Serve(s.agent, e);
            && s'.agent == o.agent && s'.clock == s.clock && s'.limits == s.limits
            && s'.net.answers == s.net.answers + o.answers
  {
    hide Serve;
  }

  lemma StepByTime(s: System, s': System)
    requires Next(s, s') && QueueByTime(s) && s.clock <= s'.clock
    ensures QueueByTime(s')
  {
    hide Serve, Grown, Kept, Apply;
    var step :| Enabled(s, step) && s' == Apply(s, step);
    if step.Server? {
      ServerApplied(s, step.e);
      QueueMoves(s.agent, step.e);
      GrownByTime(s.agent, step.e, s.clock);
    } else {
      OtherStep(s, step);
    }
  }

  lemma {:induction false} KeptShorter(q: seq<Item>, cutoff: int)
    ensures |Kept(q, cutoff)| <= |q|
  {
    if q != [] {
      KeptShorter(q[1..], cutoff);
    }
  }

  lemma StepDepth(s: System, s': System, bound: nat)
    requires Next(s, s') && |s.agent.lane.queue| <= bound && s.limits.maxPerClient <= bound
    ensures |s'.agent.lane.queue| <= bound && s'.limits == s.limits
  {
    hide Serve, Kept, Apply;
    var step :| Enabled(s, step) && s' == Apply(s, step);
    if step.Server? {
      ServerApplied(s, step.e);
      QueueMoves(s.agent, step.e);
      if step.e.SweepQueue? {
        KeptShorter(s.agent.lane.queue, step.e.cutoff);
      }
    } else {
      OtherStep(s, step);
    }
  }

  lemma {:induction false} ByTimeAt(trace: seq<System>, i: nat)
    requires Run(trace) && Monotone(trace) && i < |trace| && QueueByTime(trace[0])
    ensures QueueByTime(trace[i])
  {
    hide QueueByTime, Next;
    if i > 0 {
      ByTimeAt(trace, i - 1);
      StepByTime(trace[i - 1], trace[i]);
    }
  }

  /** With a clock that never goes back, every queue of a run is sorted by enqueue time and not ahead of the
      clock, exactly when the restored one was. */
  lemma QueueOrdered(trace: seq<System>)
    requires Run(trace) && Monotone(trace)
    ensures (forall i :: 0 <= i < |trace| ==> QueueByTime(trace[i])) <==> QueueByTime(trace[0])
  {
    hide QueueByTime;
    if QueueByTime(trace[0]) {
      forall i | 0 <= i < |trace|
        ensures QueueByTime(trace[i])
      {
        ByTimeAt(trace, i);
      }
    }
  }

  /** So in every state of such a run a sweep drops exactly a prefix of the queue: the items that waited too long. */
  lemma RunSweepsPrefix(trace: seq<System>, i: nat) returns (n: nat)
    requires Run(trace) && Monotone(trace) && i < |trace| && QueueByTime(trace[0])
    ensures var s := trace[i];
            var q, cutoff := s.agent.lane.queue, s.clock - s.limits.itemTtlMs;
            && n <= |q| && Serve(s.agent, SweepQueue(cutoff)).agent.lane.queue == q[n..]
            && Expired(q, cutoff) == q[..n]
            && (forall k :: 0 <= k < |q| ==> (s.clock - q[k].enqueuedAt >= s.limits.itemTtlMs <==> k < n))
            && forall c :: EventEnabled(s, SweepQueue(c)) <==> c == cutoff
  {
    hide Expired, Kept, Next, Init;
    ByTimeAt(trace, i);
    n := SweepTakesPrefix(trace[i].agent.lane.queue, trace[i].clock - trace[i].limits.itemTtlMs, trace[i].clock);
  }

  lemma {:induction false} DepthAt(trace: seq<System>, i: nat, bound: nat)
    requires Run(trace) && i < |trace|
    requires |trace[0].agent.lane.queue| <= bound && trace[0].limits.maxPerClient <= bound
    ensures |trace[i].agent.lane.queue| <= bound && trace[i].limits == trace[0].limits
  {
    hide Next;
    if i > 0 {
      DepthAt(trace, i - 1, bound);
      StepDepth(trace[i - 1], trace[i], bound);
    }
  }

  /** The depth never exceeds the maximum in a run, exactly when it did not as the server booted: restoring a
      queue does not check it. */
  lemma DepthBounded(trace: seq<System>)
    requires Run(trace)
    ensures var max := trace[0].limits.maxPerClient;
            (forall i :: 0 <= i < |trace| ==> |trace[i].agent.lane.queue| <= max) <==>
              |trace[0].agent.lane.queue| <= max
  {
    hide Next;
    var max := trace[0].limits.maxPerClient;
    if |trace[0].agent.lane.queue| <= max {
      forall i | 0 <= i < |trace|
        ensures |trace[i].agent.lane.queue| <= max
      {
        DepthAt(trace, i, max);
      }
    }
  }

  // ---- the stash over whole runs ----

  /** A stretch leaves a stashed task where it is, unless the poll it serves takes it along. */
  lemma ServeStash(a: Agent, e: Event, away: multiset<TaskId>, handed: multiset<TaskId>)
    requires Safe(a, away + Returned(e), handed) && a.stash.Some?
    ensures var o := Serve(a, e);
            o.agent.stash == a.stash ||
            (e.PollArrives? && o.agent.stash == None && o.answers == [Answer(e.poll, a.stash)])
  {
    hide Balanced, PollsKept, ResolveWaiter, DispatchTask;
    var x := a.stash.value;
    assert x in Held(a) + (away + Returned(e));
    assert a.lane.running == Some(x);
    NotReturned(a, x, away, Returned(e));
    ResolveStash(a);
    if a.record.Some? {
      ResolveStash(a.(record := Some(WithStatus(a.record.value, Offline))));
    }
  }

  lemma ResolveStash(a: Agent)
    ensures ResolveWaiter(a, None).agent.stash == a.stash
  {
  }

  lemma NotReturned(a: Agent, x: TaskId, away: multiset<TaskId>, back: multiset<TaskId>)
    requires a.stash == Some(x) && a.lane.running == Some(x) && Held(a) + (away + back) <= Bag(a.lane.running)
    ensures back == multiset{} && a.rejected == None
  {
    forall y
      ensures y !in back && a.rejected != Some(y)
    {
      assert (Held(a) + (away + back))[y] <= Bag(a.lane.running)[y];
    }
  }

  /** A stash is never overwritten or dropped: the next state has it still, or the step was the arrival of a poll
      whose answer carries it. */
  lemma StashKept(trace: seq<System>, i: nat)
    requires Run(trace) && i + 1 < |trace| && trace[i].agent.stash.Some?
    ensures var s, s' := trace[i], trace[i + 1];
            s'.agent.stash == s.agent.stash ||
            (s'.agent.stash == None && exists p ::
              p in s.net.polls && s'.net.answers == s.net.answers + [Answer(p, s.agent.stash)])
  {
    hide Safe, Serve, Apply, Away;
    RunInv(trace, i);
    var s, s' := trace[i], trace[i + 1];
    assert Next(s, s');
    var step :| Enabled(s, step) && s' == Apply(s, step);
    if !step.Server? {
      OtherStep(s, step);
    } else {
      ServerApplied(s, step.e);
      ReturnedAway(s, step.e);
      ServeStash(s.agent, step.e, Away(s) - Returned(step.e), s.history.handed);
      if step.e.PollArrives? {
        assert step.e.poll in s.net.polls;
      }
    }
  }
}
