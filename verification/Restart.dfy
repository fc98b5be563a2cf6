// A client that outlives its server: it may be at work, and have results to report, of tasks from before the server
// booted. Exactly when can it reject a task as busy or as a duplicate?
module Restarts {
  import opened Wrappers
  import opened CollectionQueues
  import opened Agents
  import opened TaskRunners
  import opened Protocol

  ghost predicate Rejected(s: System) { s.history.busy + s.history.duplicates > 0 }

  ghost predicate NeverRejects(s: System) {
    forall trace, i :: RunFrom(s, trace) && 0 <= i < |trace| ==> !Rejected(trace[i])
  }

  /** The client runs nothing, and reports no task that still waits in the restored queue. */
  predicate Unrelated(s: System) {
    && s.client.slot == None
    && forall x :: x in s.client.reporting + s.client.outbox ==> x !in Ids(s.agent.lane.queue)
  }

  // ---- an unrelated client: its old results run beside the protocol ----

  /** Copies of tasks that the server knows nothing of. */
  datatype Old = Old(reporting: multiset<TaskId>, outbox: multiset<TaskId>, results: multiset<TaskId>)

  function Copies(o: Old): multiset<TaskId> { o.reporting + o.outbox + o.results }

  function Beside(t: System, o: Old): System {
    t.(client := t.client.(reporting := t.client.reporting + o.reporting, outbox := t.client.outbox + o.outbox),
       net := t.net.(results := t.net.results + o.results))
  }

  predicate Foreign(t: System, o: Old) {
    forall x :: x in Copies(o) ==> x !in Ids(t.agent.books.accepted)
  }

  lemma AwayBeside(t: System, o: Old)
    ensures Away(Beside(t, o)) == Away(t) + Copies(o)
  {
    hide Tasks, Bag;
    var answers, slot := Tasks(t.net.answers), Bag(t.client.slot);
    assert answers + t.net.frames + (t.net.results + o.results) + slot + (t.client.reporting + o.reporting)
           + (t.client.outbox + o.outbox)
           == answers + t.net.frames + t.net.results + slot + t.client.reporting + t.client.outbox + Copies(o);
  }

  // All copies about are of accepted tasks.
  lemma AwayAccepted(t: System, id: TaskId)
    requires Inv(t) && id !in Ids(t.agent.books.accepted)
    ensures id !in Away(t) && t.agent.lane.running != Some(id)
  {
    hide Away, Ids;
    RunningAccepted(t.agent, id);
    assert (Held(t.agent) + Away(t))[id] <= Bag(t.agent.lane.running)[id];
  }

  lemma RunningAccepted(a: Agent, id: TaskId)
    requires Balanced(a.lane, a.books) && id !in Ids(a.books.accepted)
    ensures a.lane.running != Some(id)
  {
    hide Ids;
    assert Bag(a.lane.running)[id] <= Ids(a.books.accepted)[id];
  }

  // The result of a task that does not run frees no slot.
  lemma UnknownResultKeeps(a: Agent, e: Event, away: multiset<TaskId>, handed: multiset<TaskId>)
    requires (e.AgentResult? || e.SocketResult?) && a.lane.running != Some(e.id) && Safe(a, away, handed)
    ensures ServedSafely(a, e, away, handed)
  {
    hide Safe, PumpAgent, PollsKept, Handed;
    var b := DispatchingToIdle(a);
    SafeRecord(a, b.record, a.socketOpen, away, handed);
    DropStash(b, away, handed);
    PumpKeeps(if e.AgentResult? then b.(stash := None) else b, away, handed);
  }

  // What it does to the whole system is a step of the same system with the result on its way.
  lemma UnknownResult(t: System, e: Event)
    requires Inv(t) && (e.AgentResult? || e.SocketResult?) && e.id !in Ids(t.agent.books.accepted)
    ensures Inv(ServerStep(t, e))
  {
    hide Safe, Serve, ServedSafely, PollsAccounted, Away, Ids, EventEnabled;
    AwayAccepted(t, e.id);
    var u := t.(net := t.net.(results := t.net.results + multiset{e.id}));
    OneMore(t, u, e);
    UnknownResultKeeps(t.agent, e, Away(t), t.history.handed);
    ServedInv(u, e);
  }

  lemma OneMore(t: System, u: System, e: Event)
    requires (e.AgentResult? || e.SocketResult?) && e.id !in Away(t)
    requires u == t.(net := t.net.(results := t.net.results + multiset{e.id}))
    ensures EventEnabled(u, e) && Away(u) - Returned(e) == Away(t) && ServerStep(u, e) == ServerStep(t, e)
    ensures PollsAccounted(t) ==> PollsAccounted(u)
  {
    hide Away, Serve, PollsAccounted;
    AwayMore(t, u, e.id);
    InResults(t, e.id);
    MoreLess(t.net.results, e.id);
    MoreLess(Away(t), e.id);
    SamePolls(t, u);
  }

  lemma SamePolls(t: System, u: System)
    requires u.history == t.history && u.agent == t.agent && u.net.polls == t.net.polls
    ensures PollsAccounted(t) ==> PollsAccounted(u)
  {
    hide FreshPolls, Bag;
  }

  lemma AwayMore(t: System, u: System, id: TaskId)
    requires u == t.(net := t.net.(results := t.net.results + multiset{id}))
    ensures Away(u) == Away(t) + multiset{id}
  {
    hide Tasks, Bag;
  }

  lemma InResults(t: System, id: TaskId)
    ensures id in t.net.results ==> id in Away(t)
  {
    hide Tasks, Bag;
  }

  lemma MoreLess(m: multiset<TaskId>, id: TaskId)
    ensures m + multiset{id} - multiset{id} == m
    ensures id !in m ==> m - multiset{id} == m
  {
  }

  /** A step of the protocol with old results beside it is a step of the protocol, or moves an old result on. */
  lemma StepBeside(t: System, o: Old, step: Step) returns (t': System, o': Old)
    requires Inv(t) && Foreign(t, o) && Enabled(Beside(t, o), step)
    ensures Apply(Beside(t, o), step) == Beside(t', o') && Inv(t') && Foreign(t', o')
  {
    hide Inv, Foreign, Apply, Enabled;
    match step
    case Server(e) => t', o' := ServerBeside(t, o, e);
    case ClientRestarts => t', o' := RestartBeside(t, o);
    case Report(id) => t', o' := ReportBeside(t, o, id);
    case Post(id) => t', o' := PostBeside(t, o, id);
    case LoseResult(id) => t', o' := LoseResultBeside(t, o, id);
    case LoseReport(id) => t', o' := LoseReportBeside(t, o, id);
    case _ => t', o' := OwnBeside(t, o, step);
  }

  // Steps of the client and the network keep what the server accepted.
  lemma OwnStep(t: System, o: Old, step: Step)
    requires Inv(t) && Foreign(t, o) && Enabled(t, step) && !step.Server?
    ensures Inv(Apply(t, step)) && Foreign(Apply(t, step), o)
  {
    hide Inv, Apply, Enabled;
    NextInv(t, Apply(t, step));
    OtherStep(t, step);
  }

  lemma OwnBeside(t: System, o: Old, step: Step) returns (t': System, o': Old)
    requires Inv(t) && Foreign(t, o) && Enabled(Beside(t, o), step)
    requires step.ClockReads? || step.ClientPolls? || step.TakeAnswer? || step.TakeFrame? || step.TaskEnds?
      || step.LosePoll? || step.LoseAnswer? || step.LoseFrame?
    ensures Apply(Beside(t, o), step) == Beside(t', o') && Inv(t') && Foreign(t', o')
  {
    hide Inv, Foreign;
    OwnStep(t, o, step);
    t', o' := Apply(t, step), o;
    if step.TakeAnswer? || step.TakeFrame? {
      TakeBeside(t, o, step);
    } else if step.TaskEnds? {
      var reporting, slot := t.client.reporting, Bag(t.client.slot);
      assert reporting + o.reporting + slot == reporting + slot + o.reporting;
    }
  }

  lemma TakeBeside(t: System, o: Old, step: Step)
    requires (step.TakeAnswer? || step.TakeFrame?) && Enabled(Beside(t, o), step)
    ensures Apply(Beside(t, o), step) == Beside(Apply(t, step), o)
  {
    hide Give, Without;
    if step.TakeFrame? {
      GiveBeside(t.(net := t.net.(frames := t.net.frames - multiset{step.id})), o, step.id);
    } else {
      var answer := t.net.answers[step.i];
      if answer.task.Some? {
        GiveBeside(t.(net := t.net.(answers := Without(t.net.answers, step.i)), client := t.client.(poll := None)), o,
          answer.task.value);
      }
    }
  }

  lemma GiveBeside(t: System, o: Old, id: TaskId)
    ensures Give(Beside(t, o), id) == Beside(Give(t, id), o)
  {
    var r := Receive(t.client.slot, id);
    assert t.client.outbox + o.outbox + r.reported == t.client.outbox + r.reported + o.outbox;
  }

  lemma Taken(own: multiset<TaskId>, old': multiset<TaskId>, id: TaskId)
    requires id in own
    ensures own + old' - multiset{id} == own - multiset{id} + old'
  {
  }

  lemma TakenOld(own: multiset<TaskId>, old': multiset<TaskId>, id: TaskId)
    requires id in own + old' && id !in own
    ensures id in old' && own + old' - multiset{id} == own + (old' - multiset{id})
  {
  }

  lemma Added(own: multiset<TaskId>, old': multiset<TaskId>, id: TaskId)
    ensures own + old' + multiset{id} == own + multiset{id} + old' == own + (old' + multiset{id})
  {
  }

  // Fewer or moved old copies are foreign still.
  lemma StillForeign(t: System, o: Old, o': Old)
    requires Foreign(t, o) && Copies(o') <= Copies(o)
    ensures Foreign(t, o')
  {
    hide Copies, Ids;
  }

  lemma ReportBeside(t: System, o: Old, id: TaskId) returns (t': System, o': Old)
    requires Inv(t) && Foreign(t, o) && Enabled(Beside(t, o), Report(id))
    ensures Apply(Beside(t, o), Report(id)) == Beside(t', o') && Inv(t') && Foreign(t', o')
  {
    hide Inv, Foreign;
    Added(t.client.outbox, o.outbox, id);
    if id in t.client.reporting {
      OwnStep(t, o, Report(id));
      Taken(t.client.reporting, o.reporting, id);
      t', o' := Apply(t, Report(id)), o;
    } else {
      TakenOld(t.client.reporting, o.reporting, id);
      t', o' := t, o.(reporting := o.reporting - multiset{id}, outbox := o.outbox + multiset{id});
      assert Copies(o') == Copies(o);
      StillForeign(t, o, o');
    }
  }

  lemma PostBeside(t: System, o: Old, id: TaskId) returns (t': System, o': Old)
    requires Inv(t) && Foreign(t, o) && Enabled(Beside(t, o), Post(id))
    ensures Apply(Beside(t, o), Post(id)) == Beside(t', o') && Inv(t') && Foreign(t', o')
  {
    hide Inv, Foreign;
    Added(t.net.results, o.results, id);
    if id in t.client.outbox {
      OwnStep(t, o, Post(id));
      Taken(t.client.outbox, o.outbox, id);
      t', o' := Apply(t, Post(id)), o;
    } else {
      TakenOld(t.client.outbox, o.outbox, id);
      t', o' := t, o.(outbox := o.outbox - multiset{id}, results := o.results + multiset{id});
      assert Copies(o') == Copies(o);
      StillForeign(t, o, o');
    }
  }

  lemma LoseResultBeside(t: System, o: Old, id: TaskId) returns (t': System, o': Old)
    requires Inv(t) && Foreign(t, o) && Enabled(Beside(t, o), LoseResult(id))
    ensures Apply(Beside(t, o), LoseResult(id)) == Beside(t', o') && Inv(t') && Foreign(t', o')
  {
    hide Inv, Foreign;
    if id in t.net.results {
      OwnStep(t, o, LoseResult(id));
      Taken(t.net.results, o.results, id);
      t', o' := Apply(t, LoseResult(id)), o;
    } else {
      TakenOld(t.net.results, o.results, id);
      t', o' := t, o.(results := o.results - multiset{id});
      StillForeign(t, o, o');
    }
  }

  lemma LoseReportBeside(t: System, o: Old, id: TaskId) returns (t': System, o': Old)
    requires Inv(t) && Foreign(t, o) && Enabled(Beside(t, o), LoseReport(id))
    ensures Apply(Beside(t, o), LoseReport(id)) == Beside(t', o') && Inv(t') && Foreign(t', o')
  {
    hide Inv, Foreign;
    if id in t.client.outbox {
      OwnStep(t, o, LoseReport(id));
      Taken(t.client.outbox, o.outbox, id);
      t', o' := Apply(t, LoseReport(id)), o;
    } else {
      TakenOld(t.client.outbox, o.outbox, id);
      t', o' := t, o.(outbox := o.outbox - multiset{id});
      StillForeign(t, o, o');
    }
  }

  lemma RestartBeside(t: System, o: Old) returns (t': System, o': Old)
    requires Inv(t) && Foreign(t, o)
    ensures Apply(Beside(t, o), ClientRestarts) == Beside(t', o') && Inv(t') && Foreign(t', o')
  {
    hide Inv, Foreign;
    OwnStep(t, o, ClientRestarts);
    t', o' := Apply(t, ClientRestarts), Old(multiset{}, multiset{}, o.results);
    StillForeign(t', o, o');
  }

  // ---- stretches of the server ----

  lemma ServerBeside(t: System, o: Old, e: Event) returns (t': System, o': Old)
    requires Inv(t) && Foreign(t, o) && Enabled(Beside(t, o), Server(e))
    ensures Apply(Beside(t, o), Server(e)) == Beside(t', o') && Inv(t') && Foreign(t', o')
  {
    hide Inv, Foreign, Serve;
    t' := ServerStep(t, e);
    if (e.AgentResult? || e.SocketResult?) && e.id !in t.net.results {
      TakenOld(t.net.results, o.results, e.id);
      o' := o.(results := o.results - multiset{e.id});
      assert t.net.results - Returned(e) == t.net.results;
      ForeignId(t, o, e.id);
      UnknownResult(t, e);
      AcceptedStays(t, o, e);
      StillForeign(t', o, o');
    } else {
      o' := o;
      EnabledOwn(t, o, e);
      ResultsBeside(t, o, e);
      ServerInv(t, e);
      AcceptedStays(t, o, e);
    }
  }

  lemma ForeignId(t: System, o: Old, id: TaskId)
    requires Foreign(t, o) && id in o.results
    ensures id !in Ids(t.agent.books.accepted)
  {
    assert id in Copies(o);
  }

  lemma ResultsBeside(t: System, o: Old, e: Event)
    requires EventEnabled(t, e)
    ensures t.net.results + o.results - Returned(e) == t.net.results - Returned(e) + o.results
  {
    hide Away, Ids;
    if e.AgentResult? || e.SocketResult? {
      Taken(t.net.results, o.results, e.id);
    }
  }

  lemma EnabledOwn(t: System, o: Old, e: Event)
    requires EventEnabled(Beside(t, o), e) && ((e.AgentResult? || e.SocketResult?) ==> e.id in t.net.results)
    ensures EventEnabled(t, e)
    ensures e.StartAnalysis? ==> e.item.analysisId !in Copies(o)
  {
    hide Away, Ids, Copies;
    AwayBeside(t, o);
  }

  lemma AcceptedStays(t: System, o: Old, e: Event)
    requires Foreign(t, o) && (e.StartAnalysis? ==> e.item.analysisId !in Copies(o))
    ensures Foreign(ServerStep(t, e), o)
  {
    hide Serve, Ids, Copies, Grown, Accepts;
    QueueMoves(t.agent, e);
    if e.StartAnalysis? {
      IdsSnoc(t.agent.books.accepted, e.item);
    }
  }

  /** Over every run from there. */
  lemma {:induction false} RunBeside(s: System, t: System, o: Old, trace: seq<System>, i: nat)
    returns (t': System, o': Old)
    requires RunFrom(s, trace) && i < |trace| && s == Beside(t, o) && Inv(t) && Foreign(t, o)
    ensures trace[i] == Beside(t', o') && Inv(t')
    ensures Foreign(t', o')
  {
    hide Inv, Foreign, Apply, Enabled, Beside;
    if i == 0 {
      t', o' := t, o;
    } else {
      var u, p := RunBeside(s, t, o, trace, i - 1);
      assert Next(trace[i - 1], trace[i]);
      var step :| Enabled(trace[i - 1], step) && trace[i] == Apply(trace[i - 1], step);
      t', o' := StepBeside(u, p, step);
    }
  }

  lemma UnrelatedSafe(s: System, trace: seq<System>, i: nat)
    requires Boots(s) && s.client.poll == None && Unrelated(s) && RunFrom(s, trace) && i < |trace|
    ensures !Rejected(trace[i])
  {
    hide RunFrom;
    var t := s.(client := Client(None, multiset{}, multiset{}, None));
    var o := Old(s.client.reporting, s.client.outbox, multiset{});
    assert s == Beside(t, o);
    InitInv(t);
    assert Foreign(t, o);
    hide Inv, Foreign;
    var t', o' := RunBeside(s, t, o, trace, i);
    NothingRejected(t');
  }

  lemma NothingRejected(t: System)
    requires Inv(t)
    ensures !Rejected(t)
  {
  }

  // ---- any other client: a run in which it rejects a task ----

  ghost predicate CanReject(s: System) {
    exists trace :: RunFrom(s, trace) && Rejected(trace[|trace| - 1])
  }

  lemma Prepend(s: System, step: Step)
    requires Enabled(s, step) && CanReject(Apply(s, step))
    ensures CanReject(s)
  {
    hide Apply, Enabled, Rejected;
    var t := Apply(s, step);
    var trace :| RunFrom(t, trace) && Rejected(trace[|trace| - 1]);
    assert Next(s, t);
    var longer := [s] + trace;
    forall i | 0 < i < |longer|
      ensures Next(longer[i - 1], longer[i])
    {
      if i > 1 {
        assert Next(trace[i - 2], trace[i - 1]);
      }
    }
    assert RunFrom(s, longer) && longer[|longer| - 1] == trace[|trace| - 1];
  }

  lemma RejectsNow(s: System)
    requires Rejected(s)
    ensures CanReject(s)
  {
    assert RunFrom(s, [s]);
  }

  // A stretch of the server without messages.
  lemma Stretch(s: System, e: Event)
    requires EventEnabled(s, e) && !e.PollArrives? && Returned(e) == multiset{}
    ensures Enabled(s, Server(e))
    ensures var s' := Apply(s, Server(e));
            s'.agent == Serve(s.agent, e).agent && s'.client == s.client && s'.limits == s.limits
            && s'.net.results == s.net.results && s'.clock == s.clock
  {
    hide Serve, EventEnabled;
    assert s.net.results - multiset{} == s.net.results;
  }

  /** The client fetches a stashed task: a poll is sent, arrives and is answered with it. */
  function Fetches(s: System): System
    requires s.agent.stash.Some?
  {
    Apply(Apply(s, ClientPolls), Server(PollArrives(s.history.nextPoll)))
  }

  lemma Fetched(s: System)
    requires s.agent.stash.Some?
    ensures var u, p := Fetches(s), s.history.nextPoll;
            && u.net.answers == s.net.answers + [Answer(p, s.agent.stash)] && u.client == s.client.(poll := Some(p))
            && u.limits == s.limits && u.agent.lane == s.agent.lane && u.agent.waiter == s.agent.waiter
            && (s.agent.record.Some? && s.agent.record.value.transport == Some(LongPoll) ==>
                  u.agent.record.Some? && u.agent.record.value.transport == Some(LongPoll))
    ensures CanReject(Apply(Fetches(s), TakeAnswer(|s.net.answers|))) ==> CanReject(s)
  {
    var t, u := Apply(s, ClientPolls), Fetches(s);
    ServerApplied(t, PollArrives(s.history.nextPoll));
    StashServed(t.agent, s.history.nextPoll);
    hide Serve;
    assert Enabled(s, ClientPolls) && Enabled(t, Server(PollArrives(s.history.nextPoll)));
    assert Enabled(u, TakeAnswer(|s.net.answers|));
    assert u.client == s.client.(poll := Some(s.history.nextPoll));
    hide Apply, Enabled, CanReject;
    if CanReject(Apply(u, TakeAnswer(|s.net.answers|))) {
      Prepend(u, TakeAnswer(|s.net.answers|));
      Prepend(t, Server(PollArrives(s.history.nextPoll)));
      Prepend(s, ClientPolls);
    }
  }

  lemma StashServed(a: Agent, p: PollId)
    requires a.stash.Some?
    ensures var o := Serve(a, PollArrives(p));
            && o.answers == [Answer(p, a.stash)] && o.agent.lane == a.lane && o.agent.waiter == a.waiter
            && (a.record.Some? && a.record.value.transport == Some(LongPoll) ==>
                  o.agent.record.Some? && o.agent.record.value.transport == Some(LongPoll))
  {
  }

  lemma Delivered(u: System, i: nat)
    requires i < |u.net.answers| && u.client.poll == Some(u.net.answers[i].poll) && u.net.answers[i].task.Some?
    ensures var v, id := Apply(u, TakeAnswer(i)), u.net.answers[i].task.value;
            && (u.client.slot.Some? ==> Rejected(v))
            && (u.client.slot == None ==>
                  && v.client == u.client.(slot := Some(id), poll := None)
                  && v.agent == u.agent && v.limits == u.limits && v.net.results == u.net.results)
  {
    hide Without;
    assert u.client.outbox + multiset{} == u.client.outbox;
  }

  /** A client at work rejects what it fetches. */
  lemma StashRejected(s: System)
    requires s.client.slot.Some? && s.agent.stash.Some?
    ensures CanReject(s)
  {
    hide Apply, Rejected, Fetches, CanReject;
    Fetched(s);
    Delivered(Fetches(s), |s.net.answers|);
    RejectsNow(Apply(Fetches(s), TakeAnswer(|s.net.answers|)));
  }

  lemma Registered(a: Agent)
    ensures Serve(a, AgentRegister).agent == a.(record := Some(Record(Some(Idle), Some(LongPoll))))
  {
  }

  // An idle agent without a poll that waits stashes the head of its queue, or else a new task.
  lemma HeadStashed(a: Agent)
    requires a.record == Some(Record(Some(Idle), Some(LongPoll))) && a.waiter == None && a.lane.running == None
    requires a.lane.queue != []
    ensures var b, id := Serve(a, AgentHeartbeat(None)).agent, a.lane.queue[0].analysisId;
            b == a.(record := Some(Record(Some(Dispatching), Some(LongPoll))), stash := Some(id),
                    lane := Lane(a.lane.queue[1..], Some(id)), books := PumpBooks(a.books, a.lane.queue[0]))
  {
  }

  lemma NewStashed(a: Agent, item: Item, max: nat)
    requires a.record == Some(Record(Some(Idle), Some(LongPoll))) && a.waiter == None && a.lane == Lane([], None)
    requires max > 0
    ensures Serve(a, StartAnalysis(item, max)).agent.stash == Some(item.analysisId)
  {
    assert ([] + [item])[0] == item;
  }

  /** There are always new ids. */
  lemma {:induction false} Longest(m: multiset<TaskId>) returns (n: nat)
    ensures forall x :: x in m ==> |x| <= n
    decreases |m|
  {
    if m == multiset{} {
      n := 0;
    } else {
      var x :| x in m;
      var rest := Longest(m - multiset{x});
      n := if |x| > rest then |x| else rest;
      forall y | y in m
        ensures |y| <= n
      {
        assert y == x || y in m - multiset{x};
      }
    }
  }

  lemma FreshId(m: multiset<TaskId>) returns (id: TaskId)
    ensures id !in m
  {
    var n := Longest(m);
    var s := seq(n + 1, _ => 'x');
    id := s;
  }

  /** A client at work rejects a task as soon as the server, which runs none, has one for it. */
  lemma WorkRejects(s: System)
    requires s.client.slot.Some? && s.agent.lane.running == None && s.agent.waiter == None && s.limits.maxPerClient > 0
    ensures CanReject(s)
  {
    hide Serve, Apply, CanReject, Away, Ids;
    Stretch(s, AgentRegister);
    Registered(s.agent);
    var t := Apply(s, Server(AgentRegister));
    if t.agent.lane.queue != [] {
      Stretch(t, AgentHeartbeat(None));
      HeadStashed(t.agent);
      StashRejected(Apply(t, Server(AgentHeartbeat(None))));
      Prepend(t, Server(AgentHeartbeat(None)));
    } else {
      var id := FreshId(Ids(t.agent.books.accepted) + Away(t));
      var e := StartAnalysis(Item(id, "", t.clock), t.limits.maxPerClient);
      Stretch(t, e);
      NewStashed(t.agent, e.item, e.maxPerClient);
      StashRejected(Apply(t, Server(e)));
      Prepend(t, Server(e));
    }
    Prepend(s, Server(AgentRegister));
  }

  /** An old result of the task that the client runs again frees the server's slot under it. */
  lemma ResultRejects(s: System, id: TaskId)
    requires s.client.slot.Some? && id in s.net.results && s.agent.lane.running == Some(id) && s.agent.waiter == None
    requires s.agent.record.Some? && s.agent.record.value.transport == Some(LongPoll) && s.limits.maxPerClient > 0
    ensures CanReject(s)
  {
    hide Serve, CanReject;
    var t := Apply(s, Server(AgentResult(id)));
    FreedOrStashed(s.agent, id);
    assert t.agent == Serve(s.agent, AgentResult(id)).agent && t.client == s.client && t.limits == s.limits;
    assert Enabled(s, Server(AgentResult(id)));
    hide Apply, Enabled;
    if t.agent.stash.Some? {
      StashRejected(t);
    } else {
      WorkRejects(t);
    }
    Prepend(s, Server(AgentResult(id)));
  }

  lemma FreedOrStashed(a: Agent, id: TaskId)
    requires a.lane.running == Some(id) && a.waiter == None
    requires a.record.Some? && a.record.value.transport == Some(LongPoll)
    ensures var b := Serve(a, AgentResult(id)).agent;
            b.stash.Some? || (b.lane.running == None && b.waiter == None)
  {
  }

  lemma ReportRejects(s: System, id: TaskId)
    requires s.client.slot.Some? && s.agent.lane.running == Some(id) && s.agent.waiter == None
    requires id in s.client.reporting + s.client.outbox
    requires s.agent.record.Some? && s.agent.record.value.transport == Some(LongPoll) && s.limits.maxPerClient > 0
    ensures CanReject(s)
  {
    hide CanReject;
    if id in s.client.outbox {
      ResultRejects(Apply(s, Post(id)), id);
      Prepend(s, Post(id));
    } else {
      var t := Apply(s, Report(id));
      ResultRejects(Apply(t, Post(id)), id);
      Prepend(t, Post(id));
      Prepend(s, Report(id));
    }
  }

  /** A server that runs nothing and has the task of an old result at the head of its queue. */
  lemma HeadRejects(s: System)
    requires s.client.slot == None && s.agent.lane.running == None && s.agent.waiter == None
    requires s.agent.lane.queue != [] && s.limits.maxPerClient > 0
    requires s.agent.lane.queue[0].analysisId in s.client.reporting + s.client.outbox
    ensures CanReject(s)
  {
    hide Serve, Apply, CanReject, Fetches, Rejected;
    var id := s.agent.lane.queue[0].analysisId;
    Stretch(s, AgentRegister);
    Registered(s.agent);
    var t := Apply(s, Server(AgentRegister));
    Stretch(t, AgentHeartbeat(None));
    HeadStashed(t.agent);
    var u := Apply(t, Server(AgentHeartbeat(None)));
    Fetched(u);
    var i := |u.net.answers|;
    Delivered(Fetches(u), i);
    ReportRejects(Apply(Fetches(u), TakeAnswer(i)), id);
    Prepend(t, Server(AgentHeartbeat(None)));
    Prepend(s, Server(AgentRegister));
  }

  // Without a transport the head is dispatched in vain, and gone.
  lemma HeadDropped(a: Agent)
    requires a.lane.running == None && a.lane.queue != []
    ensures var b := Serve(Serve(a, SocketRegister).agent, SocketClose).agent;
            var c := Serve(Serve(b, SocketHeartbeat(Some(Idle))).agent, DispatchCaught).agent;
            c.lane == Lane(a.lane.queue[1..], None) && c.waiter == a.waiter
  {
  }

  function Dropping(s: System): System {
    Apply(Apply(Apply(Apply(s, Server(SocketRegister)), Server(SocketClose)), Server(SocketHeartbeat(Some(Idle)))),
      Server(DispatchCaught))
  }

  lemma Dropped(s: System)
    requires s.agent.lane.running == None && s.agent.lane.queue != []
    ensures var v := Dropping(s);
            && v.client == s.client && v.limits == s.limits && v.agent.waiter == s.agent.waiter
            && v.agent.lane == Lane(s.agent.lane.queue[1..], None)
    ensures CanReject(Dropping(s)) ==> CanReject(s)
  {
    hide Serve, Apply, CanReject;
    HeadDropped(s.agent);
    var t := Apply(s, Server(SocketRegister));
    Stretch(s, SocketRegister);
    var u := Apply(t, Server(SocketClose));
    Stretch(t, SocketClose);
    var w := Apply(u, Server(SocketHeartbeat(Some(Idle))));
    Stretch(u, SocketHeartbeat(Some(Idle)));
    Stretch(w, DispatchCaught);
    if CanReject(Dropping(s)) {
      Prepend(w, Server(DispatchCaught));
      Prepend(u, Server(SocketHeartbeat(Some(Idle))));
      Prepend(t, Server(SocketClose));
      Prepend(s, Server(SocketRegister));
    }
  }

  /** And one that has it further back, behind items that fail. */
  lemma {:induction false} WaitingRejects(s: System, k: nat)
    requires s.client.slot == None && s.agent.lane.running == None && s.agent.waiter == None
    requires k < |s.agent.lane.queue| && s.limits.maxPerClient > 0
    requires s.agent.lane.queue[k].analysisId in s.client.reporting + s.client.outbox
    ensures CanReject(s)
    decreases k
  {
    hide CanReject, Dropping;
    if k == 0 {
      HeadRejects(s);
    } else {
      Dropped(s);
      WaitingRejects(Dropping(s), k - 1);
    }
  }

  lemma {:induction false} PlaceOf(q: seq<Item>, id: TaskId) returns (k: nat)
    requires id in Ids(q)
    ensures k < |q| && q[k].analysisId == id
  {
    if q[0].analysisId == id {
      k := 0;
    } else {
      k := PlaceOf(q[1..], id);
      k := k + 1;
    }
  }

  /** A client that is at work as the server boots, or reports a task that was restored as waiting, can come to reject
      one. */
  lemma RelatedRejects(s: System)
    requires Boots(s) && s.limits.maxPerClient > 0 && !Unrelated(s)
    ensures CanReject(s)
  {
    hide CanReject, Ids;
    if s.client.slot.Some? {
      WorkRejects(s);
    } else {
      var x :| x in s.client.reporting + s.client.outbox && x in Ids(s.agent.lane.queue);
      var k := PlaceOf(s.agent.lane.queue, x);
      WaitingRejects(s, k);
    }
  }

  /** Exactly when the client's busy and duplicate rejections are unreachable: it runs nothing as the server boots, and
      has no task to report that the server restored as waiting. Its poll ended with the connection. */
  lemma NeverRejectsIff(s: System)
    requires Boots(s) && s.client.poll == None && s.limits.maxPerClient > 0
    ensures NeverRejects(s) <==> Unrelated(s)
  {
    hide Rejected, Unrelated, CanReject, Next;
    if Unrelated(s) {
      forall trace, i | RunFrom(s, trace) && 0 <= i < |trace|
        ensures !Rejected(trace[i])
      {
        UnrelatedSafe(s, trace, i);
      }
    } else {
      RelatedRejects(s);
      CanAndNever(s);
    }
  }

  lemma CanAndNever(s: System)
    requires CanReject(s)
    ensures !NeverRejects(s)
  {
    var trace :| RunFrom(s, trace) && Rejected(trace[|trace| - 1]);
    assert Rejected(trace[|trace| - 1]);
  }
}
