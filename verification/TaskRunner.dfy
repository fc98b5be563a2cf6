// The client side: one task slot (client/src/task_runner.rs) and what an arriving task does to it
// (client/src/poll.rs, client/src/ws.rs).
module TaskRunners {
  import opened Wrappers
  import opened CollectionQueues

  datatype Admission = Admitted | Duplicate(id: TaskId) | Busy(running: TaskId)

  /** A task that a client was handed: how it is admitted, the slot afterwards, and the results it
      reports right away. */
  datatype Received = Received(admission: Admission, slot: Option<TaskId>, reported: multiset<TaskId>)

  function Receive(slot: Option<TaskId>, id: TaskId): Received {
    match slot
    case None => Received(Admitted, Some(id), multiset{})
    case Some(running) =>
      if running == id then Received(Duplicate(id), slot, multiset{})
      else Received(Busy(running), slot, multiset{id})
  }

  /** Receiving a task neither loses nor copies it, except that a duplicate of the running task is dropped. */
  lemma ReceiveConserves(slot: Option<TaskId>, id: TaskId)
    ensures var r := Receive(slot, id);
            && (!r.admission.Duplicate? ==> Bag(r.slot) + r.reported == Bag(slot) + multiset{id})
            && (r.admission.Duplicate? <==> slot == Some(id))
            && (r.admission.Admitted? <==> slot == None)
            && (r.admission.Busy? ==> slot == Some(r.admission.running) && r.reported == multiset{id})
            && r.slot == (if slot == None then Some(id) else slot)
  {
  }

  class TaskRunner {
    var current: Option<TaskId>
    var outbox: seq<TaskId>  // results on the channel to the session loop

    constructor ()
      ensures current == None && outbox == []
    {
      current, outbox := None, [];
    }

    method RunningTaskIds() returns (ids: seq<TaskId>)
      ensures multiset(ids) == Bag(current) && |ids| <= 1
    {
      match current
      case Some(id) => ids := [id];
      case None => ids := [];
    }

    /** `try_run` up to the spawn. */
    method TryRun(id: TaskId) returns (admission: Admission)
      modifies this`current
      ensures var r := Receive(old(current), id); admission == r.admission && current == r.slot
    {
      match current
      case Some(running) =>
        if running == id {
          return Duplicate(id);
        }
        return Busy(running);
      case None =>
        current := Some(id);
        return Admitted;
    }

    /** `dispatch_task`: a busy runner reports the newcomer as failed. */
    method DispatchTask(id: TaskId)
      modifies this
      ensures current == (if old(current) == None then Some(id) else old(current))
      ensures outbox == old(outbox) + (if old(current) in {None, Some(id)} then [] else [id])
    {
      var admission := TryRun(id);
      match admission
      case Admitted =>
      case Duplicate(_) =>
      case Busy(_) => outbox := outbox + [id];
    }

    /** The end of the spawned future for `id`: first the slot is cleared, then the result is sent. */
    method Complete(id: TaskId)
      modifies this
      ensures current == None && outbox == old(outbox) + [id]
    {
      current := None;
      outbox := outbox + [id];
    }
  }
}
