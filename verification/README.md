# Verified model of the profiling agent and its dashboard

This project models the parts of the profiling system where order, arithmetic or interleaving decide whether the result
is right, and proves what they are for.

The agent side:

- **CUPTI framing** (`Bytes`, `Framing`, `RingParser`). The bytes of a capture and the ring buffer of `2 * TILE_SIZE`
  bytes that cuts arbitrarily chunked input into frames, as a class over an array, against the flat framing of the whole
  stream. Main result: the receiver hands on exactly the frames of the flat stream, for every stream of frames of at
  most `TILE_SIZE + 1` bytes, header included, and every way of cutting it. The bound is exact: above it there is a cut
  under which unread bytes outgrow the ring, and the receiver hands on nothing where the stream has a frame.
- **Trace output** (`TraceWriter`, `TraceRuns`). The in-memory and the streaming output of `TracingInfo`. Main results:
  without a limit, and from a fresh file, the two files are equal character for character; with a limit the outputs
  agree after every push exactly when no push falls into a window of sizes that a caller can compute, and for every
  event there is a limit under which one does; files can agree again after that; onto an old file each is right exactly
  up to a certain length of the old file; and what a second `write_file` leaves. What either output holds after any run
  is stated from the admitted pushes alone.
- **SLS encoder and splitter** (`SlsProtobuf`, `SlsWire`, `SlsSplit`). Main results: the bytes of every group; decoding
  inverts encoding; the greedy split is sound and no in-order partition within both caps has fewer chunks; exactly which
  entries the size estimate covers, and exactly which chunks the request accepts.
- **Task runner** (`TaskRunners`). The single task slot of the client.

The server side:

- **Task dispatch** (`CollectionQueues`, `Agents`, `DashboardServers`, `Progress`, `Protocol`, `Restarts`). The queue
  and the handlers as classes, each handler stretch between two `await`s tied to a function of one agent's state, and
  the protocol as a state machine over server stretches, client steps and a network that reorders and loses messages.
  Main results, for every run from a server that has just restored its record and queue: there is at most one copy of at
  most one task outside the queue, so the client is never busy when a task arrives; no poll waits while a task is
  stashed, and a stash stays until a poll takes it along; every task is handed out at most once; every poll is answered
  once or still parked; every accepted task is in exactly one place, and dispatch keeps the order of acceptance. Every
  stretch is work-conserving. The queue stays in time order and within its maximum if and only if it was restored so,
  the first as long as the clock does not go back, so a sweep drops exactly a prefix of it. For a client that outlives
  its server, it never rejects a task as busy or running already if and only if it runs nothing as the server boots and
  reports no task that was restored as waiting.
- **Persistence** (`Persistence`). The debounced writer, from the moment the stores are loaded. Main result: over every
  run no changed store is forgotten; when things come to rest, the files of tasks and queues equal their stores, and the
  file of clients does if and only if loading changed no client or a client has changed since.
- **Differential flame graph** (`Orders`, `StringOrder`, `FlameTrie`, `FlameDiff`, `FlamePositions`, `FoldedStacks`).
  From two texts to the levels. Main results: there is one bar for exactly the paths that occur in some line, and it
  shows, for both texts, the samples of the lines through its path and of those at it, and lies behind those that branch
  off before it; the level encoding decodes to the absolute layout, in which bars of a level never overlap and every bar
  lies inside the bar of its own parent path on both sides.
- **Trace aggregation** (`StackRebuild`, `CounterStat`, `MemoryCurve`). Main results: the rebuilt stacks are exact if
  and only if no event starts inside an earlier one, outlives it and has a further event start in between; the root of
  their tree shows the time covered if and only if no event of positive duration starts inside another of its thread;
  the counter statistics are a homomorphism from event streams; the downsampled memory curve is bounded and keeps all
  peaks.

The local analysis agent:

- **GPU idle time** (`GpuIdle`). Main result: the busy spans cover exactly the busy points, and busy time and gaps add
  up to the span of the trace.

A function that a method is proved against describes the state before and after one call; the lemmas beside it say what
the source promises about it. Times are integers or reals, in the unit of the source.

Where the code and its comments disagree, the model follows the code:

- The comment on `split_entries` says the estimate errs on the large side. It does if and only if the lengths of the
  entry's time, contents and encoding, as varints, stay within a sum of 10 bytes: see `SlsSplit.EstimateExact`, and
  `SlsSplit.EstimateCanFallShort` for an entry that the splitter passes and `put_log_group` then refuses.
- The comment in `aggregate_python_stacks` says that only the leaf's duration is attributed so that parents and children
  are not counted twice. Every event is the leaf of its own path, so its whole duration is attributed, its children's
  included: the root's value is the sum of all durations (`StackRebuild.AggregateStacks`). That is the time that the
  threads are in some call if and only if no call of positive duration starts inside an earlier one of its thread
  (`StackRebuild.RootCountsOnceIff`); `StackRebuild.CountedTwiceExample` is an input on which it is not.
- The comment on `fromJSON` says that an agent does not survive a restart of the server. It can;
  `Restarts.NeverRejectsIff` says exactly when it then never rejects a task.

## Model

| member | source | states |
|---|---|---|
| `Bytes.LE32RoundTrip` | agent/collection_framework/fifo/src/bin_parser.rs:822-833 | a u32 of the frame header comes back from its four little-endian bytes |
| `Framing.ActivityOnWire` | agent/collection_framework/fifo/src/bin_parser.rs:655-666 | the bytes 1, 0, 0, 0, four length bytes, least significant first, and that many payload bytes are an activity frame with that payload, whatever follows |
| `Framing.DevPropOnWire` | agent/collection_framework/fifo/src/bin_parser.rs:655-666 | the same with first byte 2 is a frame of device properties |
| `Framing.ExitOnWire` | agent/collection_framework/fifo/src/bin_parser.rs:655-666 | the bytes EF BE AD DE and four more are the exit frame |
| `Framing.NothingElseOnWire` | agent/collection_framework/fifo/src/bin_parser.rs:795-892 | any other header, and a frame or header cut short, yields no frame |
| `Framing.CaptureOnWire` | agent/collection_framework/fifo/src/bin_parser.rs:655-666 | a capture of such frames, byte for byte, yields exactly these and the exit frame, and is bounded exactly as its parts are |
| `Framing.FramesSplit` | agent/collection_framework/fifo/src/bin_parser.rs:795-892 | framing a stream in two parts yields the frames of the first, then those of its unframed rest continued by the second: nothing lost, repeated or reordered |
| `Framing.BoundedPrefix` | agent/collection_framework/fifo/src/bin_parser.rs:860-865 | what is left unframed of a stream of frames of bounded size is shorter than one frame, and no byte follows an exit frame |
| `Framing.BoundedFits` | agent/collection_framework/fifo/src/bin_parser.rs:894-929 | frames of at most TILE_SIZE + 1 bytes never need more than the ring holds, whatever the chunk sizes between 1 and TILE_SIZE |
| `Framing.Overrun` | agent/collection_framework/fifo/src/bin_parser.rs:894-929 | for every larger bound, three chunks of a stream within it whose unread bytes exceed the ring |
| `Framing.FrameBoundIsExact` | agent/collection_framework/fifo/src/lib.rs:24-31 | the unread bytes of every chunking of every stream of frames of at most `bound` bytes fit the ring if and only if `bound` is at most 16385, TILE_SIZE + 1 |
| `Framing.EncodeRoundTrip` | agent/collection_framework/fifo/src/bin_parser.rs:649-667 | framing inverts encoding, with or without a final exit header, and the capture is bounded exactly when its frames are |
| `RingParser.HoldsRest` | agent/collection_framework/fifo/src/bin_parser.rs:811-820 | reading some of the bytes that lie around the end of the ring leaves the others right behind the moved cursor |
| `RingParser.HoldsAppend` | agent/collection_framework/fifo/src/bin_parser.rs:911-926 | bytes written behind the unread ones extend them and overwrite none of them, if they fit |
| `RingParser.CircleBreak` | agent/collection_framework/fifo/src/bin_parser.rs:811 | how many bytes lie before the end of the ring when a header, payload or write wraps, and 0 when it does not |
| `RingParser.BinParser.ReadAround` | agent/collection_framework/fifo/src/bin_parser.rs:867-878 | the two-part read returns exactly the next unread bytes and moves the cursor behind them |
| `RingParser.BinParser.WriteAround` | agent/collection_framework/fifo/src/bin_parser.rs:911-924 | the two-part write puts the bytes behind the tail, changes no other cell and returns the new tail |
| `RingParser.BinParser.Next` | agent/collection_framework/fifo/src/bin_parser.rs:795-892 | takes off the unread bytes the frame that the flat reference cuts; asks for more without changing them when a frame is partial; keeps the ring safety bound (tail congruent to position plus occupancy, occupancy at most the ring); fails where an overrun has left no frame type at the cursor |
| `RingParser.BinParser.Load` | agent/collection_framework/fifo/src/bin_parser.rs:894-930 | refuses sizes of 0 or above TILE_SIZE; otherwise appends, writes exactly the cells behind the tail, and keeps the safety bound when the bytes fit |
| `RingParser.Feed` | agent/collection_framework/fifo/src/receiver.rs:667-698 | one buffer loaded and drained yields the frames of pending and new bytes together and leaves their unframed rest; draining terminates |
| `RingParser.Receive` | agent/collection_framework/fifo/src/receiver.rs:612-698 | chunking independence: for every bounded stream and every cut into buffers, exactly the frames of the flat stream, in order |
| `RingParser.ReceiveCapture` | agent/collection_framework/fifo/src/worker.rs:69-85 | from the bytes of a capture to the frames handed on: for every capture of frames of at most 16385 bytes and every cut into buffers of 1 to 16384 bytes, its frames and the exit frame if there is one |
| `RingParser.ReceiveEncoded` | agent/collection_framework/fifo/src/worker.rs:69-85 | end to end: the frames handed on are the ones that were encoded, and the exit frame if there is one |
| `RingParser.OverrunLosesFrame` | agent/collection_framework/fifo/src/receiver.rs:667-698 | above TILE_SIZE + 1 bytes the frame bound is not enough: chunks over which the receiver hands on nothing, though the flat stream has a frame |
| `CollectionQueues.AcceptBalanced` | server/dashboard/queue.js:30-43 | enqueueing keeps conservation (every accepted id queued, running, finished, failed or expired) and order (dispatched, then queued, is a subsequence of accepted) |
| `CollectionQueues.PumpBalanced` | server/dashboard/queue.js:53-60 | claiming the head keeps them |
| `CollectionQueues.DoneBalanced` | server/dashboard/queue.js:75-80 | freeing the slot keeps them, whichever id is reported |
| `CollectionQueues.FailBalanced` | server/dashboard/queue.js:63-67 | so does the catch block, which frees whatever runs by then |
| `CollectionQueues.SweepBalanced` | server/dashboard/queue.js:84-97 | so does dropping every item that waited past its time |
| `CollectionQueues.EnqueuedByTime` | server/dashboard/queue.js:30-43 | an item stamped with a clock that has not gone back keeps the queue in time order |
| `CollectionQueues.SweepTakesPrefix` | server/dashboard/queue.js:84-97 | a sweep of a queue in time order takes off exactly a prefix, the items that waited too long, and leaves it in time order |
| `CollectionQueues.CollectionQueue.Depth` | server/dashboard/queue.js:26 | the length of the client's queue |
| `CollectionQueues.CollectionQueue.Enqueue` | server/dashboard/queue.js:30-43 | accepts exactly below the maximum, appends the item, stamped with the clock, at the end and returns the position; a refusal changes nothing; other clients are unchanged |
| `CollectionQueues.CollectionQueue.PositionOf` | server/dashboard/queue.js:45-49 | the place of the first item with the id, or none if there is no such item |
| `CollectionQueues.CollectionQueue.Pump` | server/dashboard/queue.js:53-60 | claims the head exactly when no task runs and the queue is not empty |
| `CollectionQueues.CollectionQueue.PumpCaught` | server/dashboard/queue.js:63-67 | frees the slot and books its task as failed |
| `CollectionQueues.CollectionQueue.MarkDone` | server/dashboard/queue.js:75-80 | frees the slot only for the running task's own id |
| `CollectionQueues.CollectionQueue.SweepExpired` | server/dashboard/queue.js:84-97 | keeps, for every client, exactly the items younger than the limit in order, returns exactly the others, asks to persist only if there are any |
| `CollectionQueues.CollectionQueue.FromJSON` | server/dashboard/queue.js:103-112 | restores the waiting items and no running slot, balanced |
| `CollectionQueues.CollectionQueue.ToJSON` | server/dashboard/queue.js:99-101 | saves every client's waiting items |
| `Agents.DispatchKeeps` | server/dashboard/dashboardServer.js:263-301 | a dispatch puts exactly one copy of the task somewhere: the open poll, the stash, a frame or a rejection |
| `Agents.ResolveKeeps` | server/dashboard/dashboardServer.js:245-256 | resolving removes the parked poll with its timer and answers it once |
| `Agents.PumpKeeps` | server/dashboard/queue.js:53-68 | a pump keeps the agent safe: it dispatches only when no copy of any task is about |
| `Agents.ParkKeeps` | server/dashboard/dashboardServer.js:685-719 | a new poll supersedes and answers the one before, is parked with its own timer, and may be answered at once by a pump |
| `Agents.FinishKeeps` | server/dashboard/dashboardServer.js:743-751 | a result is of the running task, whose only copy it is, so the next dispatch is safe |
| `Agents.CaughtKeeps` | server/dashboard/queue.js:63-67 | a dispatch that threw leaves no copy of its task when the slot is freed |
| `Agents.TimerIsWaiters` | server/dashboard/dashboardServer.js:693-716 | an armed timer is always the current waiter's, so firing it deletes no other poll |
| `Agents.ServeKeeps` | server/dashboard/dashboardServer.js:245-966 | every handler stretch keeps one agent safe (at most one copy of the running task, no waiter beside a stash, armed timers exactly the waiter's, books balanced) and answers or parks every poll it opens |
| `Progress.WorkConserving` | server/dashboard/dashboardServer.js:245-966 | for every handler stretch, from the message and the state before alone: whether it dispatches, which it does after every result, and for an idle client after a new task, a heartbeat and a poll, if the slot is free and the queue not empty; then the head runs and is in the answer to the open poll, the stash, a frame or the rejection; otherwise nothing is dispatched; and which record, socket, poll and answers it leaves |
| `Progress.OneCopyMore` | server/dashboard/dashboardServer.js:263-301 | a dispatch makes exactly one copy, of the head of the queue |
| `TaskRunners.ReceiveConserves` | agent/collection_framework/client/src/poll.rs:238-274 | a received task is admitted, reported or, only if it is the running one, dropped; admitted exactly when the slot is free |
| `TaskRunners.TaskRunner.RunningTaskIds` | agent/collection_framework/client/src/task_runner.rs:47-52 | at most one id, the slot's |
| `TaskRunners.TaskRunner.TryRun` | agent/collection_framework/client/src/task_runner.rs:56-74 | duplicate, busy or admitted by the slot, which changes only on admission |
| `TaskRunners.TaskRunner.DispatchTask` | agent/collection_framework/client/src/poll.rs:240-274 | only a busy runner reports the newcomer, as failed |
| `TaskRunners.TaskRunner.Complete` | agent/collection_framework/client/src/task_runner.rs:78-103 | the slot is cleared and one result for the task is sent |
| `Protocol.NextInv` | server/dashboard/dashboardServer.js:245-966 | every step of server, client and network keeps the protocol invariant |
| `Protocol.OneCopyOfOneTask` | server/dashboard/queue.js:53-80 | in every state of every run, stash, rejection, network, client slot and unreported results hold at most one copy of one task, the one the queue has as running |
| `Protocol.NeverBusy` | agent/collection_framework/client/src/task_runner.rs:63-74 | the client's Busy and Duplicate rejections are unreachable |
| `Protocol.FreeOnArrival` | agent/collection_framework/client/src/poll.rs:72-77 | while a poll response with a task is on its way, the client runs nothing and nothing is stashed |
| `Protocol.NoLostWakeup` | server/dashboard/dashboardServer.js:285-296 | never a parked poll and a stash together; a stash is the running task; the armed timers are exactly the parked poll's |
| `Protocol.ServeStash` | server/dashboard/dashboardServer.js:263-301 | no handler stretch changes or drops a stash, except that a poll is answered with it |
| `Protocol.StashKept` | server/dashboard/dashboardServer.js:686-690 | in every run a stash is never overwritten or lost: a step leaves it, or a poll arrives and the answer to it carries the stashed task |
| `Protocol.HandedOnce` | server/dashboard/dashboardServer.js:667-719 | every task is handed to the network at most once, and a stashed one not yet |
| `Protocol.PollsAnsweredOnce` | server/dashboard/dashboardServer.js:667-719 | every poll that arrived is answered exactly once or is the one parked |
| `Protocol.EveryTaskAccounted` | server/dashboard/queue.js:30-97 | every accepted or restored id is in exactly one of queued, running, finished, failed, expired; dispatch keeps the order of acceptance |
| `Protocol.QueueMoves` | server/dashboard/queue.js:30-97 | what a handler stretch does to the queue: it adds its own accepted item at the end, or drops the expired ones, and then takes off at most the head; an accepted item is below the maximum |
| `Protocol.QueueOrdered` | server/dashboard/queue.js:39 | over a run with a clock that never goes back, the queue is in time order in every state if and only if it was restored in time order |
| `Protocol.RunSweepsPrefix` | server/dashboard/queue.js:84-97 | in every state of such a run a sweep drops exactly the prefix of items that waited too long |
| `Protocol.DepthBounded` | server/dashboard/dashboardServer.js:97 | over every run the queue is never longer than the maximum if and only if the restored one was not |
| `Restarts.NeverRejectsIff` | server/dashboard/queue.js:103-112 | for every state in which a server boots with a positive maximum, whatever its client still does: no run reaches a rejection as busy or duplicate if and only if the client runs nothing and has no result to report of a task restored as waiting |
| `Restarts.RunBeside` | server/dashboard/dashboardServer.js:721-751 | the results of tasks that the server knows nothing of run beside the protocol: every state of a run is one that keeps the protocol invariant, with some of them added |
| `Restarts.WorkRejects` | agent/collection_framework/client/src/task_runner.rs:63-74 | a client at work has a run in which it rejects a task whenever the server runs none, whatever record and queue the server has |
| `Restarts.WaitingRejects` | agent/collection_framework/client/src/task_runner.rs:63-74 | so does an idle client that has still to report a task which waits anywhere in the queue: run again, its old result frees the slot under it |
| `DashboardServers.DashboardServer.ResolvePollWaiter` | server/dashboard/dashboardServer.js:245-252 | removes waiter and timer, answers once, reports whether there was one, touches no other client |
| `DashboardServers.DashboardServer.DispatchQueuedTask` | server/dashboard/dashboardServer.js:263-301 | does to the client's state what `Agents.DispatchTask` says, and to the others nothing |
| `DashboardServers.DashboardServer.Pump` | server/dashboard/queue.js:53-62 | claim and dispatch in one stretch |
| `DashboardServers.DashboardServer.AgentPoll` | server/dashboard/dashboardServer.js:667-719 | the poll handler up to its wait: hands over a stash, or parks |
| `DashboardServers.DashboardServer.Park` | server/dashboard/dashboardServer.js:685-719 | supersedes the poll before, arms the timer, pumps an idle client |
| `DashboardServers.DashboardServer.PollTimerFires` | server/dashboard/dashboardServer.js:693-704 | answers its own poll with nothing and removes it |
| `DashboardServers.DashboardServer.PollPeerCloses` | server/dashboard/dashboardServer.js:705-716 | removes the poll only if it is still the one parked |
| `DashboardServers.DashboardServer.AgentTaskResult` | server/dashboard/dashboardServer.js:721-751 | records the status, clears flag and stash, frees the slot and dispatches the next task, as `Progress.WorkConserving` says where |
| `DashboardServers.DashboardServer.SocketTaskResult` | server/dashboard/dashboardServer.js:465-493 | the same without the stash |
| `DashboardServers.DashboardServer.AgentHeartbeatArrives` | server/dashboard/dashboardServer.js:632-662 | takes over the reported status and pumps an idle client |
| `DashboardServers.DashboardServer.StartAiAnalysis` | server/dashboard/dashboardServer.js:889-966 | accepts exactly when the client is reachable and its queue below the maximum, stamping the item with the clock; pumps an idle client |
| `DashboardServers.DashboardServer.PumpCaught` | server/dashboard/queue.js:63-67 | the catch block of a pump whose dispatch threw |
| `Persistence.FlushOrderSaves` | server/dashboard/dashboardServer.js:148-158 | a flush saves each kind that was pending once, and no other: clients, then tasks, then queues |
| `Persistence.ChangeInv` | server/dashboard/dashboardServer.js:141-143 | a change that marks its kind keeps it covered: pending with a timer, in a flush to come, or on file |
| `Persistence.TimerInv` | server/dashboard/dashboardServer.js:144-148 | the timer moves what is pending into a new flush and forgets none of it |
| `Persistence.FlushInv` | server/dashboard/dashboardServer.js:148-158 | a flush serialises the store as it is when its turn comes |
| `Persistence.WriteInv` | server/dashboard/dashboardServer.js:148-158 | a write that ends with an older snapshot has its store marked again already |
| `Persistence.QuiescentConsistent` | server/dashboard/dashboardServer.js:138-160 | with no timer and an empty chain every file equals its store, the stale ones aside |
| `Persistence.LoadClientsSame` | server/dashboard/dashboardServer.js:117-125 | loading leaves the clients as saved if and only if every one of them was saved as offline and as not connected; one saved without that field is changed |
| `Persistence.BootInv` | server/dashboard/dashboardServer.js:162-164 | as the stores are loaded nothing is scheduled, and only the clients can differ from their file, exactly when loading changed them |
| `Persistence.RunInv` | server/dashboard/dashboardServer.js:138-160 | over every run no changed store is forgotten, and a change of a stale kind makes it covered too |
| `Persistence.RunConsistent` | server/dashboard/dashboardServer.js:117-164 | over every run from boot: at rest the files of tasks and queues equal their stores; that of clients does if and only if loading changed nothing or a client has changed since |
| `Persistence.Persister.Settle` | server/dashboard/dashboardServer.js:138-160 | left alone, timer and chain bring every file that is not stale up to its store, and terminate |
| `Persistence.Persister.Set` | server/dashboard/dashboardServer.js:141-143 | a store changes and its kind is marked in one stretch |
| `Persistence.Persister.RunFlush` | server/dashboard/dashboardServer.js:148-158 | the running flush ends, or serialises its next store |
| `Persistence.Persister.EndWrite` | server/dashboard/dashboardServer.js:148-158 | the awaited write ends and the flush goes on behind it; one write at a time |
| `Persistence.Persister.OnTimer` | server/dashboard/dashboardServer.js:144-158 | the timer callback is the step of the machine |
| `Persistence.Persister.SchedulePersist` | server/dashboard/dashboardServer.js:141-143 | marks the kind and arms at most one timer |
| `SlsProtobuf.WriteVarint` | agent/collection_framework/slsrs/src/protobuf.rs:93-99 | appends the base-128 varint of the value |
| `SlsProtobuf.WriteLenDelim` | agent/collection_framework/slsrs/src/protobuf.rs:105-109 | appends tag, length and payload, whose bytes `SlsWire.TagOnWire` states |
| `SlsProtobuf.EncodeLogBytes` | agent/collection_framework/slsrs/src/protobuf.rs:127-135 | the encoding of one log, whose bytes `SlsWire.LogOnWire` states |
| `SlsProtobuf.EncodeLogGroup` | agent/collection_framework/slsrs/src/protobuf.rs:148-165 | logs, topic, source and tags in this order, as the specification function has them, whose bytes `SlsWire.GroupOnWire` states |
| `SlsProtobuf.ReadVarint` | agent/collection_framework/slsrs/src/protobuf.rs:238-252 | the decoder's loop computes the specification function, overlong input rejected |
| `SlsProtobuf.ParseLogGroup` | agent/collection_framework/slsrs/src/protobuf.rs:338-370 | the decoder's loop computes the specification function |
| `SlsProtobuf.VarintRoundTrip` | agent/collection_framework/slsrs/src/protobuf.rs:238-252 | every u64 comes back from its varint with the exact number of bytes consumed, whatever follows |
| `SlsProtobuf.LenDelimRoundTrip` | agent/collection_framework/slsrs/src/protobuf.rs:254-261 | a length-delimited record comes back with its field number and leaves exactly what follows |
| `SlsProtobuf.PairRoundTrip` | agent/collection_framework/slsrs/src/protobuf.rs:263-286 | contents and tags come back, the empty string included |
| `SlsProtobuf.LogRoundTrip` | agent/collection_framework/slsrs/src/protobuf.rs:288-311 | a log comes back with time and contents in order |
| `SlsProtobuf.GroupRoundTrip` | agent/collection_framework/slsrs/src/protobuf.rs:148-165 | decoding inverts encoding for every log group |
| `SlsProtobuf.EncodingInjective` | agent/collection_framework/slsrs/src/protobuf.rs:148-165 | no two log groups share an encoding |
| `SlsWire.VarintOnWire` | agent/collection_framework/slsrs/src/protobuf.rs:93-99 | the bytes of a varint hold the number in base 128, seven bits each and the least significant first, all but the last with the high bit set, and none too many |
| `SlsWire.VarintUnique` | agent/collection_framework/slsrs/src/protobuf.rs:93-99 | no other bytes do |
| `SlsWire.TagOnWire` | agent/collection_framework/slsrs/src/protobuf.rs:101-109 | a length-delimited field is one byte of eight times its number and 2, the length and the payload |
| `SlsWire.PairOnWire` | agent/collection_framework/slsrs/src/protobuf.rs:120-125 | a content is 0A, the key with its length, 12, the value with its length; one byte each where they are shorter than 128 |
| `SlsWire.LogOnWire` | agent/collection_framework/slsrs/src/protobuf.rs:127-135 | a log is 08, its time and, behind 12 and its length, each content |
| `SlsWire.GroupOnWire` | agent/collection_framework/slsrs/src/protobuf.rs:148-165 | a group is each log behind 0A, the topic behind 1A, the source behind 22 and each tag behind 32, each with its length |
| `SlsWire.SmallGroupOnWire` | agent/collection_framework/slsrs/src/protobuf.rs:148-165 | the twelve bytes of a group of one log at time 0 with one content of one letter each |
| `SlsWire.Utf8Valid` | agent/collection_framework/slsrs/src/protobuf.rs:263-286 | what the decoder takes for a text are the bytes of characters, after RFC 3629: these are texts |
| `SlsWire.ValidIsUtf8` | agent/collection_framework/slsrs/src/protobuf.rs:263-286 | and every text is the bytes of characters |
| `SlsWire.OtherFieldsRefused` | agent/collection_framework/slsrs/src/protobuf.rs:338-370 | the decoder refuses a group that begins with any other field |
| `SlsWire.UnfinishedRefused` | agent/collection_framework/slsrs/src/protobuf.rs:238-252 | and one whose first tag does not end |
| `SlsSplit.EstimateEntry` | agent/collection_framework/slsrs/src/client.rs:241-247 | the estimate of an entry |
| `SlsSplit.SplitEntries` | agent/collection_framework/slsrs/src/client.rs:237-274 | fails exactly when some entry alone exceeds the byte cap; otherwise the greedy chunks |
| `SlsSplit.GreedySound` | agent/collection_framework/slsrs/src/client.rs:248-274 | the chunks are the entries in order, none is empty, each is within both caps |
| `SlsSplit.GreedyWithin` | agent/collection_framework/slsrs/src/client.rs:248-274 | the caps in numbers: at most 4096 entries and 3145728 bytes of estimates |
| `SlsSplit.GreedyFull` | agent/collection_framework/slsrs/src/client.rs:256-268 | each chunk is as long as it can be: with the next entry it would be over one of the caps |
| `SlsSplit.SplitOptimal` | agent/collection_framework/slsrs/src/client.rs:248-274 | no in-order partition within both caps has fewer chunks |
| `SlsSplit.ContentChargeExact` | agent/collection_framework/slsrs/src/client.rs:241-247 | the charge of a content covers its encoded size if and only if key or value is under 128 bytes and the encoded content under 16384 |
| `SlsSplit.EstimateExact` | agent/collection_framework/slsrs/src/client.rs:241-247 | an entry adds no more bytes to the group than its estimate if and only if the varint lengths of time and log and, over the contents, those of key, value and pair less 5 each, sum to at most 10 |
| `SlsSplit.EstimateBounds` | agent/collection_framework/slsrs/src/client.rs:241-247 | so it is for an entry of contents whose charge covers them and an encoding below 32 GiB, with a byte to spare below 256 MiB |
| `SlsSplit.RequestExact` | agent/collection_framework/slsrs/src/client.rs:128-154 | the request of a chunk that the split makes is accepted if and only if its estimate, what its entries overshoot theirs by, and the lengths of topic, source and tags sum to at most the cap |
| `SlsSplit.ChunkFitsRequest` | agent/collection_framework/slsrs/src/client.rs:128-154 | the request of a chunk of entries of such contents is accepted if topic, source and tags take no more bytes than it has entries |
| `SlsSplit.EstimateCanFallShort` | agent/collection_framework/slsrs/src/client.rs:128-154 | there is an entry whose estimate is exactly the cap, which the splitter passes and the request check refuses |
| `FlameTrie.ParseLinesToRows` | server/dashboard/flamegraph.py:38-54 | the loop over the lines of a text fills the specified dictionary, in order of first appearance |
| `FlameTrie.UpsertSums` | server/dashboard/flamegraph.py:53 | adding a line adds its sample to the sums over the rows through, and at, exactly its path |
| `FlameTrie.RowsSums` | server/dashboard/flamegraph.py:38-54 | summed over the dictionary, the rows through a path, and those at it, have what the lines have, whatever order they come in |
| `FlameTrie.RowsKeys` | server/dashboard/flamegraph.py:38-54 | no two rows have the same path; a path is covered by a row if and only if it is by a line; with non-negative lines all rows are non-negative |
| `FlameTrie.JoinSplit` | server/dashboard/flamegraph.py:56-57 | splitting at a separator loses nothing, so two rows never share a path and a text is its lines |
| `FlameTrie.BuildTreeFromRows` | server/dashboard/flamegraph.py:66-70 | the loop builds the specified trie, whose samples `FlameTrie.TreeSamples` and `FoldedStacks.StacksMean` state |
| `FlameTrie.CalcSumChildren` | server/dashboard/flamegraph.py:83-86 | the children's samples, in any order of the dictionary |
| `FlameTrie.TreeSamples` | server/dashboard/flamegraph.py:56-70 | every node carries the samples of exactly the rows whose path has the node's as prefix, and there is a node for exactly those paths |
| `FlameTrie.TreeSelf` | server/dashboard/flamegraph.py:88-91 | a node's own samples are those of the rows exactly at its path |
| `FlameTrie.RowSelf` | server/dashboard/flamegraph.py:88-91 | the own samples of the node a row leads to are that row's |
| `FlameTrie.RootSelf` | server/dashboard/flamegraph.py:88-91 | the root has no samples of its own |
| `FlameTrie.BuildSound` | server/dashboard/flamegraph.py:56-91 | with non-negative rows all samples and own samples are non-negative |
| `FlameTrie.SelfConserved` | server/dashboard/flamegraph.py:83-91 | the own samples over the tree add up to the root's samples |
| `FoldedStacks.LineParsed` | server/dashboard/flamegraph.py:41-53 | a line of symbols joined by semicolons, a blank and a number is that path with that number: symbols may hold blanks, and white space around the line does not count |
| `FoldedStacks.OtherLines` | server/dashboard/flamegraph.py:41-52 | a line without a blank inside, or with no number behind the last one, is skipped |
| `FoldedStacks.LinesOfText` | server/dashboard/flamegraph.py:41 | a text joined from lines has these lines |
| `FoldedStacks.StacksMean` | server/dashboard/flamegraph.py:38-70 | for every list of stacks, as lines: the lines through a path, at it, and branching off before it have the samples of the stacks that do so; a path is mentioned exactly if it begins the path of a stack |
| `FoldedStacks.SmallText` | server/dashboard/flamegraph.py:38-70 | what two given lines say at four paths |
| `StringOrder.SortKeys` | server/dashboard/flamegraph.py:158-164 | `sorted` of the children's names: strictly ascending by code point, exactly the names of the set |
| `StringOrder.LessIff` | server/dashboard/flamegraph.py:164 | one string is before another exactly if, where they differ first, it has ended or has the smaller code point |
| `Orders.SortedUnique` | server/dashboard/flamegraph.py:164 | there is only one ascending sequence of a set, so the order in which a set or dictionary is walked before sorting does not show |
| `FlameDiff.LevelDecodes` | server/dashboard/flamegraph.py:104-137 | running sums along a level give back the absolute position of every bar on both sides |
| `FlameDiff.Flamebearer.TagIndex` | server/dashboard/flamegraph.py:139-152 | every tag has one index, which names it, and old cells keep their meaning |
| `FlameDiff.Flamebearer.AddCell` | server/dashboard/flamegraph.py:104-137 | adds the cell that encodes the bar relative to the one before on its level, and tracks positions and the greatest own sample |
| `FlameDiff.Flamebearer.RecDiff` | server/dashboard/flamegraph.py:139-172 | writes exactly the layout of the two subtrees, parents first, names in order, also where one side is missing |
| `FlameDiff.Flamebearer.RecChildren` | server/dashboard/flamegraph.py:164-172 | the loop over the names of both sides writes the layouts of the children side by side, a missing one taking no width |
| `FlameDiff.ConvertToDiff` | server/dashboard/flamegraph.py:174-207 | from two texts: one bar for exactly the paths of their lines, showing on each side the samples of the lines through the path and at it; the total of both as ticks; for non-negative lines levels that decode to the absolute layout, with non-negative offsets, bars of a level apart and each inside its parent's |
| `FlameDiff.LayoutPlaced` | server/dashboard/flamegraph.py:139-172 | bars of a level never overlap and every bar lies inside the bar of its own path's parent, one level up, on both sides |
| `FlameDiff.LayoutDepicts` | server/dashboard/flamegraph.py:139-172 | a layout has exactly one bar for every path of either tree and none else, with the samples and own samples of the nodes at that path on both sides |
| `FlameDiff.LinesDepicted` | server/dashboard/flamegraph.py:174-207 | for every two lists of lines, exactly one bar for each path that occurs, with what the lines of each side have there |
| `FlameDiff.LinesPlaced` | server/dashboard/flamegraph.py:174-207 | for every two lists of non-negative lines the bars are so placed between the origin and the totals |
| `FoldedStacks.DiffOfStacks` | server/dashboard/flamegraph.py:104-207 | from two texts of stacks to the cells: one bar for exactly the beginnings of their paths, in order, as wide as the stacks through it, with the samples of those that end there, behind those that branch off before it; the cells of each level hold these numbers; greatest own sample and ticks |
| `FlamePositions.LayoutPositions` | server/dashboard/flamegraph.py:139-172 | every bar of a layout lies exactly behind the nodes that branch off before it, on both sides |
| `FlamePositions.LayoutInOrder` | server/dashboard/flamegraph.py:164 | the bars come parents first and then by the order of their symbols |
| `FlamePositions.LinesPositions` | server/dashboard/flamegraph.py:139-207 | both, from the lines of two texts |
| `FlameDiff.OffsetsNonNegative` | server/dashboard/flamegraph.py:104-137 | with non-negative samples all offsets are non-negative |
| `StackRebuild.SortOrdered` | server/dashboard/analysis.py:564 | the group is sorted by start ascending, then duration descending, and is the same group |
| `StackRebuild.SortStable` | server/dashboard/analysis.py:564 | events with the same start and duration stay in the order they came |
| `StackRebuild.PopEnded` | server/dashboard/analysis.py:569-570 | the loop pops the events that have ended off the top |
| `StackRebuild.RebuildPaths` | server/dashboard/analysis.py:565-574 | the path of each event is the names of the specified stack and its own |
| `StackRebuild.PathNames` | server/dashboard/analysis.py:571-572 | the path of an event is the names of the events on the stack, bottom first, and its own name |
| `StackRebuild.ExactIff` | server/dashboard/analysis.py:565-574 | the stacks are exactly the earlier events still open, outermost first, if and only if no event starts inside an earlier one, outlives it and has a further event start in between |
| `StackRebuild.NestedExact` | server/dashboard/analysis.py:558-574 | for sorted intervals that are nested or disjoint the stacks are exact |
| `StackRebuild.NestedGroupExact` | server/dashboard/analysis.py:558-574 | so they are for any such group, sorted by the source's key |
| `StackRebuild.CrossingExample` | server/dashboard/analysis.py:569-571 | three events, sorted, whose last one gets an ended event in its path |
| `StackRebuild.InsertValue` | server/dashboard/analysis.py:530-538 | an insertion adds its time to the value of every node on its path and to no other |
| `StackRebuild.InsertGroup` | server/dashboard/analysis.py:565-574 | every node's value grows by the durations of the events whose path runs through it |
| `StackRebuild.GroupsConserve` | server/dashboard/analysis.py:560-563 | grouping by thread neither loses nor repeats time |
| `StackRebuild.AggregateStacks` | server/dashboard/analysis.py:557-586 | every node's value is the time of the events, of all threads, whose rebuilt path runs through it; the root's value is the sum of all durations |
| `StackRebuild.NewPart` | server/dashboard/analysis.py:565-574 | in a group sorted by start, what an event adds to the covered time is exactly the time at which it runs and no earlier one does |
| `StackRebuild.TopIff` | server/dashboard/analysis.py:565-574 | in a nested or disjoint sorted group an event is at the top exactly when no earlier event is open as it starts |
| `StackRebuild.TopsDisjoint` | server/dashboard/analysis.py:565-574 | events at the top do not overlap the earlier ones, so their durations add up to covered time |
| `StackRebuild.InsideTop` | server/dashboard/analysis.py:565-574 | every event of positive duration lies inside one at the top, so they cover all of it |
| `StackRebuild.CountedOnceIff` | server/dashboard/analysis.py:557-586 | for every group sorted by start, crossing intervals included: the sum of all durations is the covered time if and only if no event of positive duration starts inside an earlier one |
| `StackRebuild.RootCountsOnceIff` | server/dashboard/analysis.py:557-586 | for every list of events: what the root shows is the time that its threads are in some call, each on its own, if and only if no call of positive duration starts inside an earlier one of its thread |
| `StackRebuild.CountedTwiceExample` | server/dashboard/analysis.py:557-586 | two nested events for which 13 microseconds are counted over 10 |
| `StackRebuild.TopsCover` | server/dashboard/analysis.py:565-574 | in a nested or disjoint group the covered time is that of the events at the top |
| `CounterStat.OrAssociative` | server/dashboard/analysis.py:313 | or-ing reason bits is associative, over integers of any sign |
| `CounterStat.BitOr` | server/dashboard/analysis.py:184 | a bit is set in an or exactly when it is set in one of the two |
| `CounterStat.StatCounterEvent` | server/dashboard/analysis.py:159-184 | the loop over an event's arguments folds them into the specified statistics |
| `CounterStat.MergeCounterStat` | server/dashboard/analysis.py:298-316 | the two loops merge device by device and field by field, in any order of the dictionaries |
| `CounterStat.FoldMeans` | server/dashboard/analysis.py:153-184 | what the statistics of a field say of its samples: count, sum, extremes, or-ed bits, and the values of the earliest and the latest sample, the last arrival where times are equal |
| `CounterStat.FoldHomomorphism` | server/dashboard/analysis.py:298-316 | folding one stream after another equals merging the folds of both, for every field |
| `CounterStat.MergeAssociative` | server/dashboard/analysis.py:298-316 | merging is associative, for any statistics |
| `CounterStat.MergeEmpty` | server/dashboard/analysis.py:298-316 | the empty statistics are its identity |
| `CounterStat.DeviceKey` | server/dashboard/analysis.py:153-158 | a key that ends in `_gpu` and digits, behind a field, is that field on that device |
| `CounterStat.ProcessKey` | server/dashboard/analysis.py:153-158 | every other key is a field of the process |
| `CounterStat.SampleIs` | server/dashboard/analysis.py:165-168 | an argument is a sample if and only if it is a number and not the event's name |
| `CounterStat.ReasonsIff` | server/dashboard/analysis.py:175 | the or-ed fields are those whose name ends in EVENT_REASONS |
| `CounterStat.TruncIs` | server/dashboard/analysis.py:184 | their values are cut to integers towards zero |
| `MemoryCurve.FoldBuckets` | server/dashboard/analysis.py:339-352 | a bucket for exactly the slots with a counted event, holding the peaks of the slot |
| `MemoryCurve.OrderIndependent` | server/dashboard/analysis.py:326-329 | the buckets depend on the events as a bag only |
| `MemoryCurve.WindowsPartition` | server/dashboard/analysis.py:388-391 | the windows are non-empty, cover the sorted slots in order, and are full except the last |
| `MemoryCurve.FlushMemoryBuckets` | server/dashboard/analysis.py:374-397 | one point for each window, with the window's peaks and its start in milliseconds |
| `MemoryCurve.CurveBounded` | server/dashboard/analysis.py:374-397 | at most `maxPoints` points; times start at 0 and strictly increase |
| `MemoryCurve.CurveKeepsPeaks` | server/dashboard/analysis.py:390-393 | the greatest totals over the points are those over the buckets |
| `MemoryCurve.CurveKeepsEventPeaks` | server/dashboard/analysis.py:339-397 | and those over all memory events |
| `MemoryCurve.ShortCurveExact` | server/dashboard/analysis.py:388 | within the bound nothing is thinned out: the points are the buckets |
| `MemoryCurve.SlotIff` | server/dashboard/analysis.py:345 | a slot is five milliseconds, from a multiple of them on; where times before zero fall |
| `MemoryCurve.CountedIff` | server/dashboard/analysis.py:339-345 | an event is counted, in its slot, if and only if it has both totals |
| `MemoryCurve.StrideLeast` | server/dashboard/analysis.py:388 | the stride is the least that leaves no more windows than points |
| `MemoryCurve.PointTime` | server/dashboard/analysis.py:394-397 | a point's time is five milliseconds for each slot since the first |
| `MemoryCurve.MemoryStat` | server/dashboard/analysis.py:329-371 | from the memory events of a file to its curve: at most 600 points, from 0 on, multiples of five milliseconds apart, with the greatest totals of all the events |
| `GpuIdle.TraceStore.Push` | local-profiling-agent/src/eventStore.js:35-43 | stores the event; keeps the bounds the least start and the greatest end of all events with a finite time, and leaves them for one without |
| `GpuIdle.NormalizeEvent` | local-profiling-agent/src/traceIngest.js:41-55 | events come through exactly if they are neither metadata nor flow and have a finite time, and then have a finite end |
| `GpuIdle.Ingest` | local-profiling-agent/src/traceIngest.js:121-131 | the reader fills the store with the normalised events in order, all finite, which is what the analysis relies on |
| `GpuIdle.KernelCatIff` | local-profiling-agent/src/eventStore.js:111-117 | the categories of kernels, in any case: the three words, and all that have `kernel` or a GPU operation in them |
| `GpuIdle.BusyIff` | local-profiling-agent/src/tools/analyzeGpuIdle.js:9-12 | the work is the events of a kernel category that last at all; the device is busy from the start of one up to its end |
| `GpuIdle.CollectKernels` | local-profiling-agent/src/tools/analyzeGpuIdle.js:7-15 | the intervals cover exactly the points at which some kernel runs |
| `GpuIdle.MergeSpans` | local-profiling-agent/src/tools/analyzeGpuIdle.js:18-27 | merged spans are sorted with strictly positive gaps, and no covered point is gained or lost |
| `GpuIdle.SeparatedUnique` | local-profiling-agent/src/tools/analyzeGpuIdle.js:16-27 | such spans are determined by the points they cover, so the order of the kernels does not show |
| `GpuIdle.LengthsCount` | local-profiling-agent/src/tools/analyzeGpuIdle.js:31 | the summed lengths count the covered points |
| `GpuIdle.InnerGaps` | local-profiling-agent/src/tools/analyzeGpuIdle.js:35-42 | the gaps between spans are the uncovered points between first and last |
| `GpuIdle.CollectGaps` | local-profiling-agent/src/tools/analyzeGpuIdle.js:35-49 | with the leading and the trailing gap, all uncovered points of the trace; each gap reaches from span to span or from or to a bound, and its note says which |
| `GpuIdle.SortLongestFirst` | local-profiling-agent/src/tools/analyzeGpuIdle.js:50 | sorting the gaps puts the longest first and keeps their total |
| `GpuIdle.AnalyzeGpuIdle` | local-profiling-agent/src/tools/analyzeGpuIdle.js:6-50 | no report exactly when no kernel runs; otherwise busy and idle time count the busy and idle points, busy time plus all gaps is the span of the trace, and each gap is as long as it can be |
| `TraceWriter.IntroducedRefines` | agent/collection_framework/fifo/src/receiver.rs:135-289 | the records that introduce a process or thread go to both outputs, once and in the same order |
| `TraceWriter.PushRefinesIff` | agent/collection_framework/fifo/src/receiver.rs:291-428 | a push keeps the side buffer equal to the legacy records if and only if both outputs let it in or both drop it |
| `TraceWriter.RunsTogetherIff` | agent/collection_framework/fifo/src/receiver.rs:291-428 | over a run, the outputs agree after every push if and only if they let in the same pushes |
| `TraceWriter.PartsIff` | agent/collection_framework/fifo/src/receiver.rs:291-301 | the first push on which they part is the first that falls into the window: it fits the limit without the introducing records written so far and not with them |
| `TraceWriter.RunsAgreeIff` | agent/collection_framework/fifo/src/receiver.rs:291-428 | over a run, the outputs agree after every push if and only if no push falls into that window |
| `TraceWriter.FreshFilesSameIff` | agent/collection_framework/fifo/src/receiver.rs:458-486 | from a fresh file the two files are the same if and only if the side buffer holds the legacy records character for character |
| `TraceWriter.StreamingIsLegacy` | agent/collection_framework/fifo/src/receiver.rs:458-486 | without a limit, for every sequence of pushes, the spliced file is the legacy dump |
| `TraceWriter.OldFileIff` | agent/collection_framework/fifo/src/receiver.rs:462-480 | neither output truncates: the legacy file is right if and only if the old one is no longer than the whole document, the streaming file if and only if it is no longer than the document without records |
| `TraceWriter.SecondWrite` | agent/collection_framework/fifo/src/receiver.rs:458-486 | the characters that a second `write_file` leaves, after a second exit frame: the legacy output the whole document with another pair of closing records; the streaming output the bare document over the beginning of the first records, which stay behind it, and the closing records once more |
| `TraceWriter.LimitDiverges` | agent/collection_framework/fifo/src/receiver.rs:135-152 | for every event there is a configured limit under which pushing it twice makes different files, because only the legacy output counts introducing records |
| `TraceWriter.FilesAgreeAgain` | agent/collection_framework/fifo/src/receiver.rs:291-351 | outputs that have parted can agree again, files and all: an event only the streaming output takes, then one that prints shorter, with the same records once its identifiers are mapped, that only the legacy output takes |
| `TraceRuns.RunHolds` | agent/collection_framework/fifo/src/receiver.rs:58-410 | after every run of either output, from the admitted pushes alone: the records, each event mapped or as it is and followed by its flow, introduced before its first; the properties; the size; and a window that begins with the earliest event and ends with the latest |
| `TraceRuns.AdmittedIff` | agent/collection_framework/fifo/src/receiver.rs:291-301 | a push is let in exactly when the event as it came, or the metadata, still fits the limit |
| `TraceRuns.MissedCount` | agent/collection_framework/fifo/src/receiver.rs:297-301 | every push is admitted or counted as missed |
| `TraceRuns.IntroducedOnce` | agent/collection_framework/fifo/src/receiver.rs:135-289 | every process and thread, of host and device apart, is introduced once if some admitted event has it and else not |
| `TraceRuns.CommaSeparated` | agent/collection_framework/fifo/src/receiver.rs:458-486 | records, and properties, are separated by commas |
| `TraceRuns.FileOfRun` | agent/collection_framework/fifo/src/receiver.rs:458-486 | the file of a run without a limit in full, from its first character to the window records, whichever output writes it |
| `TraceRuns.KeptBack` | agent/collection_framework/fifo/src/receiver.rs:87 | the part of the limit kept back is its 72nd, rounded down |
| `TraceRuns.MaxDouble` | agent/collection_framework/fifo/src/receiver.rs:75 | the window begins from the greatest double, 53 bits times two to the 971 |
| `TraceWriter.TracingInfo.PushEventCpu` | agent/collection_framework/fifo/src/receiver.rs:291-351 | does to the writer what the specification says: admission, bounds, mapped identifiers, introducing records, event and flow, which `TraceRuns.RunHolds` states over runs |
| `TraceWriter.TracingInfo.PushEventGpu` | agent/collection_framework/fifo/src/receiver.rs:353-410 | the same for events of the device, whose identifiers are not mapped |
| `TraceWriter.TracingInfo.PushMeta` | agent/collection_framework/fifo/src/receiver.rs:416-428 | admitted by the limit, but not counted towards it |
| `TraceWriter.TracingInfo.PushDeviceProps` | agent/collection_framework/fifo/src/receiver.rs:412-414 | always taken, into both outputs' document |
| `TraceWriter.TracingInfo.WriteFile` | agent/collection_framework/fifo/src/receiver.rs:458-486 | the file that results from what it held before |

## Left out

- `SlsProtobuf.GroupRoundTrip`: stated for groups whose encoding is shorter than 2^64 bytes; no vector of the original
  is longer.
- `RingParser.Receive`: stated for streams with valid frame types in which nothing follows an exit frame. After an
  invalid type the cursor has passed the header while occupancy is unchanged, and the original does not recover;
  `RingParser.BinParser.Next` says what it leaves.
- `Agents.ServeKeeps`: every stretch is a function of one agent's state; the class `DashboardServers.DashboardServer`
  has methods for the handlers that move tasks and polls, not for registration, socket heartbeats and the timed sweeps,
  which only change the record, expire items or resolve a poll.
- `Protocol.NextInv`: one agent at a time and messages that are lost or reordered but not copied; the ids of polls and
  analyses are fresh (counters and UUIDs): none that was accepted or is still about comes again.
- `TraceWriter.StreamingIsLegacy`: writes to the side buffer succeed and the debug log level, which keeps the side
  buffer, is off.
- `FlameTrie.ParseLinesToRows`: the conversion of a sample's text to a number is a parameter, with finite results; sums
  are over reals, so rounding is not modelled.
- `CounterStat.StatCounterEvent`: sums are over reals, so rounding is not modelled; digits of a device key are ASCII.
- `GpuIdle.AnalyzeGpuIdle`: whole microseconds, for a store of finite events, as `GpuIdle.Ingest` fills it; percentages,
  display rounding and the cut to the longest gaps are not modelled.
- `GpuIdle.Ingest`: a duration is finite or missing; the cap on the number of events and the JSON reader are not
  modelled.
- `MemoryCurve.FlushMemoryBuckets`: totals are whole numbers; a point holds the three values that the source appends to
  three lists.
- Requests without the client or analysis id they need, which are answered with an error.
- Nodes of both tries are values: updating a node in place, and two names for the same node, are not captured.
- Liveness when a result is lost: the dispatch watchdog resets the status and does not free the queue slot. Safety only.
- `Protocol.OneCopyOfOneTask`: for a client that is idle and has nothing to report as the server boots, with any
  restored record and queue; `Restarts` is about the others.
- `Restarts.NeverRejectsIff`: a maximum of 0, which the configuration cannot set; the poll of before the restart, which
  ends with its connection.
- The backoff of the poll session and its timing: the client may poll at any moment, which allows more runs than the
  loop makes.
- Failed and partial disk writes in persistence; changes of a store that its handler does not mark, apart from loading
  the clients.
- Fields of items, records and results that no decision depends on (arguments, labels, time stamps of records,
  messages).
- `markDispatched`, which nothing calls; the request and session handling around the handlers; authentication; WebSocket
  keep-alive.
- `decode_len` adding a length near 2^64 to the bytes consumed, which overflows in the original; the sum is unbounded
  here.
- Compression, signing and retries of the SLS client; text protocols and per-field decoding of CUPTI records; the JSON
  printer, which is a parameter of the trace writer.
- The branch of `aggregate_python_stacks` over ids, its hot list, the order of finalized children and the node cap
  `_trim`.
- Timelines, units and metadata of the flame graph response; the other analysis tools over the trace store.
