// The handlers of server/dashboard/dashboardServer.js over the server's own maps. Each method is one
// stretch without an `await`, and does to its client what `Agents.Serve` says and to the others nothing.
module DashboardServers {
  import opened Wrappers
  import opened CollectionQueues
  import opened Agents

  /** The polls whose armed timer names client `c`. */
  function ArmedFor(timers: map<PollId, ClientId>, c: ClientId): set<PollId> {
    set p | p in timers && timers[p] == c
  }

  /** The armed timers are exactly those of the parked polls. */
  predicate TimersMatch(waiters: map<ClientId, PollId>, timers: map<PollId, ClientId>) {
    && (forall c :: c in waiters ==> waiters[c] in timers && timers[waiters[c]] == c)
    && (forall p :: p in timers ==> timers[p] in waiters && waiters[timers[p]] == p)
  }

  lemma DropTimer(waiters: map<ClientId, PollId>, timers: map<PollId, ClientId>, c: ClientId)
    requires TimersMatch(waiters, timers) && c in waiters
    ensures TimersMatch(waiters - {c}, timers - {waiters[c]})
    ensures ArmedFor(timers - {waiters[c]}, c) == ArmedFor(timers, c) - {waiters[c]}
    ensures forall d :: d != c ==> ArmedFor(timers - {waiters[c]}, d) == ArmedFor(timers, d)
  {
  }

  lemma TimerOwner(waiters: map<ClientId, PollId>, timers: map<PollId, ClientId>, p: PollId)
    requires TimersMatch(waiters, timers) && p in timers
    ensures timers[p] in waiters && waiters[timers[p]] == p && p in ArmedFor(timers, timers[p])
  {
  }

  lemma ArmTimer(waiters: map<ClientId, PollId>, timers: map<PollId, ClientId>, c: ClientId, p: PollId)
    requires TimersMatch(waiters, timers) && c !in waiters && p !in timers
    ensures TimersMatch(waiters[c := p], timers[p := c])
    ensures ArmedFor(timers[p := c], c) == ArmedFor(timers, c) + {p}
    ensures forall d :: d != c ==> ArmedFor(timers[p := c], d) == ArmedFor(timers, d)
  {
  }

  class DashboardServer {
    const collectionQueue: CollectionQueue
    var profilingClients: map<ClientId, Record>
    var pollWaiters: map<ClientId, PollId>
    var timers: map<PollId, ClientId>  // armed poll timers, each with the client its callback names
    var inflightItems: map<ClientId, TaskId>
    var sockets: set<ClientId>
    var rejections: map<ClientId, TaskId>  // dispatches that threw, their catch blocks still to run
    var taskResults: map<TaskId, string>

    ghost function AgentOf(c: ClientId): Agent
      reads this, collectionQueue
    {
      Agent(
        if c in profilingClients then Some(profilingClients[c]) else None,
        collectionQueue.LaneOf(c),
        collectionQueue.BooksOf(c),
        if c in pollWaiters then Some(pollWaiters[c]) else None,
        ArmedFor(timers, c),
        if c in inflightItems then Some(inflightItems[c]) else None,
        c in sockets,
        if c in rejections then Some(rejections[c]) else None)
    }

    ghost predicate Valid()
      reads this, collectionQueue
    {
      collectionQueue.Valid() && TimersMatch(pollWaiters, timers)
    }

    twostate predicate OthersKept(c: ClientId)
      reads this, collectionQueue
    {
      forall d :: d != c ==> AgentOf(d) == old(AgentOf(d))
    }

    constructor (queue: CollectionQueue)
      requires queue.Valid()
      ensures Valid() && collectionQueue == queue
      ensures forall c :: AgentOf(c) == Agent(None, queue.LaneOf(c), queue.BooksOf(c), None, {}, None, false, None)
    {
      collectionQueue := queue;
      profilingClients, pollWaiters, timers, inflightItems := map[], map[], map[], map[];
      sockets, rejections, taskResults := {}, map[], map[];
    }

    method ResolvePollWaiter(c: ClientId, payload: Option<TaskId>) returns (delivered: bool, answers: seq<Answer>)
      requires Valid()
      modifies this`pollWaiters, this`timers
      ensures Valid() && OthersKept(c)
      ensures delivered <==> old(AgentOf(c)).waiter.Some?
      ensures timers.Keys <= old(timers).Keys
      ensures Out(AgentOf(c), answers, None) == ResolveWaiter(old(AgentOf(c)), payload)
    {
      hide Balanced, LaneAt, BooksAt, ArmedFor, TimersMatch;
      if c !in pollWaiters {
        return false, [];
      }
      var waiter := pollWaiters[c];
      DropTimer(pollWaiters, timers, c);
      pollWaiters := pollWaiters - {c};
      timers := timers - {waiter};
      return true, [Answer(waiter, payload)];
    }

    method SetRecord(c: ClientId, r: Record)
      requires Valid()
      modifies this`profilingClients
      ensures Valid() && OthersKept(c)
      ensures AgentOf(c) == old(AgentOf(c)).(record := Some(r))
    {
      hide Balanced, LaneAt, BooksAt, ArmedFor, TimersMatch;
      profilingClients := profilingClients[c := r];
    }

    /** `dispatchQueuedTask`; a throw is a rejection, to be caught by the pump that awaits it. */
    method DispatchQueuedTask(c: ClientId, id: TaskId) returns (answers: seq<Answer>, frame: Option<TaskId>)
      requires Valid()
      modifies this`profilingClients, this`pollWaiters, this`timers, this`inflightItems, this`rejections
      ensures Valid() && OthersKept(c)
      ensures Out(AgentOf(c), answers, frame) == DispatchTask(old(AgentOf(c)), id)
    {
      hide Balanced, LaneAt, BooksAt, ArmedFor, TimersMatch;
      if c !in profilingClients {
        rejections := rejections[c := id];
        return [], None;
      }
      var r := profilingClients[c];
      if r.transport != Some(LongPoll) && c !in sockets {
        rejections := rejections[c := id];
        return [], None;
      }
      SetRecord(c, WithStatus(r, Dispatching));
      if r.transport == Some(LongPoll) {
        var delivered;
        delivered, answers := ResolvePollWaiter(c, Some(id));
        if !delivered {
          inflightItems := inflightItems[c := id];
        }
        return answers, None;
      }
      return [], Some(id);
    }

    /** `pump` up to its `await`, the dispatch included. */
    method Pump(c: ClientId) returns (answers: seq<Answer>, frame: Option<TaskId>)
      requires Valid()
      modifies this, collectionQueue
      ensures Valid() && OthersKept(c) && taskResults == old(taskResults)
      ensures Out(AgentOf(c), answers, frame) == PumpAgent(old(AgentOf(c)))
    {
      hide Balanced, LaneAt, BooksAt, ArmedFor, TimersMatch;
      hide DispatchTask;
      var item := collectionQueue.Pump(c);
      if item == None {
        return [], None;
      }
      assert AgentOf(c) == old(AgentOf(c)).(
        lane := PumpLane(old(AgentOf(c)).lane),
        books := PumpBooks(old(AgentOf(c)).books, item.value));
      answers, frame := DispatchQueuedTask(c, item.value.analysisId);
    }

    method PumpWhenIdle(c: ClientId) returns (answers: seq<Answer>, frame: Option<TaskId>)
      requires Valid()
      modifies this, collectionQueue
      ensures Valid() && OthersKept(c) && taskResults == old(taskResults)
      ensures Out(AgentOf(c), answers, frame) == PumpIfIdle(old(AgentOf(c)))
    {
      hide Balanced, LaneAt, BooksAt, ArmedFor, TimersMatch;
      hide PumpAgent;
      answers, frame := [], None;
      var depth := collectionQueue.Depth(c);
      if c in profilingClients && profilingClients[c].status == Some(Idle) && depth > 0 {
        answers, frame := Pump(c);
      }
    }

    /** `GET /api/agent/poll` up to its `await`. */
    method AgentPoll(c: ClientId, poll: PollId) returns (answers: seq<Answer>, frame: Option<TaskId>)
      requires Valid() && poll !in timers
      modifies this, collectionQueue
      ensures Valid() && OthersKept(c)
      ensures Out(AgentOf(c), answers, frame) == Serve(old(AgentOf(c)), PollArrives(poll))
    {
      hide Balanced, LaneAt, BooksAt, ArmedFor, TimersMatch;
      var r := if c in profilingClients then profilingClients[c] else Record(None, Some(LongPoll));
      if r.transport.None? {
        r := r.(transport := Some(LongPoll));
      }
      if r.status.None? || r.status == Some(Offline) {
        r := WithStatus(r, Idle);
      }
      SetRecord(c, r);
      if c in inflightItems {
        var pending := inflightItems[c];
        inflightItems := inflightItems - {c};
        return [Answer(poll, Some(pending))], None;
      }
      answers, frame := Park(c, poll);
    }

    // The executor of the promise: supersede the old waiter, register the new one, pump.
    method Park(c: ClientId, poll: PollId) returns (answers: seq<Answer>, frame: Option<TaskId>)
      requires Valid() && poll !in timers
      modifies this, collectionQueue
      ensures Valid() && OthersKept(c)
      ensures Out(AgentOf(c), answers, frame) == ParkPoll(old(AgentOf(c)), poll)
    {
      hide Balanced, LaneAt, BooksAt, ArmedFor, TimersMatch;
      hide PumpIfIdle, ResolveWaiter;
      var superseded, delivered;
      delivered, superseded := ResolvePollWaiter(c, None);
      ResolvedEmpty(old(AgentOf(c)), AgentOf(c));
      ArmTimer(pollWaiters, timers, c, poll);
      pollWaiters, timers := pollWaiters[c := poll], timers[poll := c];
      answers, frame := PumpWhenIdle(c);
      answers := superseded + answers;
    }

    lemma ResolvedEmpty(a: Agent, b: Agent)
      requires b == ResolveWaiter(a, None).agent
      ensures b.waiter == None
    {
    }

    /** The timer of a parked poll fires. */
    method PollTimerFires(poll: PollId) returns (answers: seq<Answer>)
      requires Valid() && poll in timers
      modifies this`pollWaiters, this`timers
      ensures Valid() && OthersKept(old(timers[poll]))
      ensures Out(AgentOf(old(timers[poll])), answers, None) == Serve(old(AgentOf(timers[poll])), PollTimer(poll))
    {
      hide Balanced, LaneAt, BooksAt, ArmedFor, TimersMatch;
      var c := timers[poll];
      TimerOwner(pollWaiters, timers, poll);
      DropTimer(pollWaiters, timers, c);
      timers := timers - {poll};
      pollWaiters := pollWaiters - {c};
      return [Answer(poll, None)];
    }

    /** The peer of a held poll goes away. */
    method PollPeerCloses(c: ClientId, poll: PollId) returns (answers: seq<Answer>)
      requires Valid()
      modifies this`pollWaiters, this`timers
      ensures Valid() && OthersKept(c)
      ensures Out(AgentOf(c), answers, None) == Serve(old(AgentOf(c)), PollCloses(poll))
    {
      hide Balanced, LaneAt, BooksAt, ArmedFor, TimersMatch;
      answers := [];
      if c in pollWaiters && pollWaiters[c] == poll {
        DropTimer(pollWaiters, timers, c);
        pollWaiters := pollWaiters - {c};
        timers := timers - {poll};
        answers := [Answer(poll, None)];
      }
    }

    method ClearDispatching(c: ClientId)
      requires Valid()
      modifies this`profilingClients
      ensures Valid() && OthersKept(c)
      ensures AgentOf(c) == DispatchingToIdle(old(AgentOf(c)))
    {
      hide Balanced, LaneAt, BooksAt, ArmedFor, TimersMatch;
      if c in profilingClients && profilingClients[c].status == Some(Dispatching) {
        SetRecord(c, WithStatus(profilingClients[c], Idle));
      }
    }

    method ClearStash(c: ClientId)
      requires Valid()
      modifies this`inflightItems
      ensures Valid() && OthersKept(c)
      ensures AgentOf(c) == old(AgentOf(c)).(stash := None)
    {
      hide Balanced, LaneAt, BooksAt, ArmedFor, TimersMatch;
      inflightItems := inflightItems - {c};
    }

    // markDone, then pump.
    method Finish(c: ClientId, id: TaskId) returns (answers: seq<Answer>, frame: Option<TaskId>)
      requires Valid()
      modifies this, collectionQueue
      ensures Valid() && OthersKept(c) && taskResults == old(taskResults)
      ensures Out(AgentOf(c), answers, frame) == FinishTask(old(AgentOf(c)), id)
    {
      hide Balanced, LaneAt, BooksAt, ArmedFor, TimersMatch;
      hide PumpAgent;
      collectionQueue.MarkDone(c, id);
      assert AgentOf(c) == old(AgentOf(c)).(
        lane := DoneLane(old(AgentOf(c)).lane, id),
        books := if old(AgentOf(c)).lane.running == Some(id) then FinishBooks(old(AgentOf(c)).books, id)
                 else old(AgentOf(c)).books);
      answers, frame := Pump(c);
    }

    /** `POST /api/agent/task_result`. */
    method AgentTaskResult(c: ClientId, id: TaskId, status: string)
      returns (answers: seq<Answer>, frame: Option<TaskId>)
      requires Valid()
      modifies this, collectionQueue
      ensures Valid() && OthersKept(c)
      ensures Out(AgentOf(c), answers, frame) == Serve(old(AgentOf(c)), AgentResult(id))
      ensures taskResults == old(taskResults)[id := status]
    {
      hide Balanced, LaneAt, BooksAt, ArmedFor, TimersMatch;
      hide FinishTask;
      taskResults := taskResults[id := status];
      ClearDispatching(c);
      ClearStash(c);
      answers, frame := Finish(c, id);
    }

    /** The TASK_RESULT frame. */
    method SocketTaskResult(c: ClientId, id: TaskId, status: string)
      returns (answers: seq<Answer>, frame: Option<TaskId>)
      requires Valid()
      modifies this, collectionQueue
      ensures Valid() && OthersKept(c)
      ensures Out(AgentOf(c), answers, frame) == Serve(old(AgentOf(c)), SocketResult(id))
      ensures taskResults == old(taskResults)[id := status]
    {
      hide Balanced, LaneAt, BooksAt, ArmedFor, TimersMatch;
      hide FinishTask;
      taskResults := taskResults[id := status];
      ClearDispatching(c);
      answers, frame := Finish(c, id);
    }

    /** `POST /api/agent/heartbeat`. */
    method AgentHeartbeatArrives(c: ClientId, status: Option<Status>)
      returns (answers: seq<Answer>, frame: Option<TaskId>)
      requires Valid()
      modifies this, collectionQueue
      ensures Valid() && OthersKept(c)
      ensures Out(AgentOf(c), answers, frame) == Serve(old(AgentOf(c)), AgentHeartbeat(status))
    {
      hide Balanced, LaneAt, BooksAt, ArmedFor, TimersMatch;
      hide PumpIfIdle;
      var r := if c in profilingClients then profilingClients[c] else Record(None, Some(LongPoll));
      r := Beat(r, status);
      if r.transport.None? {
        r := r.(transport := Some(LongPoll));
      }
      SetRecord(c, r);
      answers, frame := PumpWhenIdle(c);
    }

    /** `start_ai_analysis` from its first check to the `await` on the pump. */
    method StartAiAnalysis(c: ClientId, id: TaskId, owner: string, now: int)
      returns (accepted: bool, answers: seq<Answer>, frame: Option<TaskId>)
      requires Valid()
      modifies this, collectionQueue
      ensures Valid() && OthersKept(c)
      ensures accepted <==> Accepts(old(AgentOf(c)), collectionQueue.maxPerClient)
      ensures Out(AgentOf(c), answers, frame)
        == Serve(old(AgentOf(c)), StartAnalysis(Item(id, owner, now), collectionQueue.maxPerClient))
    {
      hide Balanced, LaneAt, BooksAt, ArmedFor, TimersMatch;
      hide PumpAgent;
      accepted, answers, frame := false, [], None;
      if c !in profilingClients {
        return;
      }
      var r := profilingClients[c];
      var isPoll := r.transport == Some(LongPoll);
      if !isPoll && c !in sockets {
        return;
      }
      if isPoll && r.status == Some(Offline) {
        return;
      }
      ghost var item := Item(id, owner, now);
      var position := collectionQueue.Enqueue(c, id, owner, now);
      if position.None? {
        return;
      }
      accepted := true;
      assert AgentOf(c) == old(AgentOf(c)).(
        lane := old(AgentOf(c)).lane.(queue := old(AgentOf(c)).lane.queue + [item]),
        books := AcceptBooks(old(AgentOf(c)).books, item));
      if r.status == Some(Idle) {
        answers, frame := Pump(c);
      }
    }

    /** The catch block of a pump whose dispatch threw. */
    method PumpCaught(c: ClientId)
      requires Valid() && c in rejections
      modifies this`rejections, collectionQueue
      ensures Valid() && OthersKept(c)
      ensures Quiet(AgentOf(c)) == Serve(old(AgentOf(c)), DispatchCaught)
    {
      hide Balanced, LaneAt, BooksAt, ArmedFor, TimersMatch;
      rejections := rejections - {c};
      collectionQueue.PumpCaught(c);
    }
  }
}
