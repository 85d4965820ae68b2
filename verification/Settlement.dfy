/** Acks and nacks that are repeated because their reply was lost: the first one
    that is made settles the message, and the others change nothing. */
module Settlement {
  import opened Keyspace
  import opened DispatchSpec
  import opened Lifecycle

  predicate Settles(call: Call, id: Id) {
    call.command == Ack(id) || call.command == Nack(id)
  }

  function Settled(call: Call): Status
    requires call.command.Ack? || call.command.Nack?
  {
    if call.command.Ack? then Acked else Dead(call.queue.name, call.now)
  }

  /** An ack or nack by the holder of the lease takes effect, whatever its own
      maintenance does. */
  lemma FirstSettles(s: Sys, call: Call, s': Sys, id: Id)
    requires Agree(s.db, s.st) && Step(s, call, s') && Settles(call, id) && 0 < call.heartbeatTimeout
    requires StatusOf(s.st, id) == Leased(call.queue, call.worker)
    ensures StatusOf(s'.st, id) == Settled(call)
  {
    hide Agree;
    var mid :| StepVia(s, call, mid, s');
    var t := StepOn(s, call, mid, s', id);
    assert call.worker !in DeadWorkers(Beat(s.db, call), call);
  }

  /** Between maintenance and its end, a call changes nothing that anybody but
      the caller can see. */
  ghost predicate ChangesNothing(db: Db, call: Call) {
    && (forall n :: Letters(Execute(db, call).dead, n) == Letters(db.dead, n))
    && (forall q :: At(Execute(db, call).queues, q).list == At(db.queues, q).list)
    && (forall q :: At(Execute(db, call).queues, q).msgs == At(db.queues, q).msgs)
    && (forall q, w :: w != call.worker ==>
          Leases(At(Execute(db, call).queues, q).acks, w) == Leases(At(db.queues, q).acks, w))
  }

  /** Once a message is finished, any ack or nack of it changes nothing. */
  lemma FinishedIsIdle(s: Sys, call: Call, mid: Db, s': Sys, id: Id)
    requires Agree(s.db, s.st) && StepVia(s, call, mid, s') && Settles(call, id)
    requires StatusOf(s.st, id).Finished()
    ensures ChangesNothing(mid, call)
  {
    hide Agree, Execute, OnQueue, OnLetters;
    var tidy := Tidy(s.st, Beat(s.db, call), call);
    BeatAgrees(s, call);
    MaintenanceRefines(Beat(s.db, call), s.st, call, mid);
    TidyOn(s.st, Beat(s.db, call), call, id);
    LateCallsChangeNothing(mid, tidy, call, {id});
  }

  /** A settlement that is repeated: in any run, after the holder's first ack or
      nack that was made, the message is finished for good, and every later ack
      or nack of it, by anyone, changes nothing. */
  lemma RepeatsChangeNothing(states: seq<Sys>, calls: seq<Call>, i: nat, j: nat, mid: Db, id: Id)
    requires Run(states, calls) && i < j < |calls| && 0 < calls[i].heartbeatTimeout
    requires Settles(calls[i], id) && StatusOf(states[i].st, id) == Leased(calls[i].queue, calls[i].worker)
    requires Settles(calls[j], id) && StepVia(states[j], calls[j], mid, states[j + 1])
    ensures StatusOf(states[i + 1].st, id) == Settled(calls[i])
    ensures StatusOf(states[j].st, id).Finished() && ChangesNothing(mid, calls[j])
    ensures StatusOf(states[j + 1].st, id).Finished()
  {
    hide Agree, Step, StepVia, StatusOf, ChangesNothing;
    RunAgrees(states, calls, i);
    assert StepAt(states, calls, i);
    FirstSettles(states[i], calls[i], states[i + 1], id);
    FinishedStays(states, calls, i + 1, j, id);
    FinishedStays(states, calls, i + 1, j + 1, id);
    RunAgrees(states, calls, j);
    FinishedIsIdle(states[j], calls[j], mid, states[j + 1], id);
  }
}
