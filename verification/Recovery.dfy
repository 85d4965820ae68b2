/** Leases outlive the workers that took them: heartbeats, the return of
    leases by maintenance, and the queue size that `join` waits on. */
module Recovery {
  import opened Keyspace
  import opened Sequences
  import opened DispatchSpec
  import opened Lifecycle

  // ----- every lease holder keeps its heartbeat

  ghost predicate Beating(db: Db) {
    forall w :: HasLeases(db.queues, w) ==> w in db.beats
  }

  /** The caller sweeps itself off the heartbeats and then takes messages. */
  ghost predicate EvictsItself(db: Db, call: Call) {
    var qd := At(db.queues, call.queue);
    && call.maintain && call.heartbeatTimeout <= 0
    && call.command.Fetch? && 0 < call.command.prefetch && 0 < call.maxUnpack
    && (forall q :: q != call.queue ==> Leases(At(db.queues, q).acks, call.worker) == {})
    && (qd.list != [] || exists id, w :: id in qd.msgs && w in DeadWorkers(db, call) && id in Leases(qd.acks, w))
  }

  lemma MaintenanceKeepsBeats(db: Db, call: Call, db': Db)
    requires Beating(db) && Maintained(db, call, db')
    ensures Beating(db')
    ensures forall q, w :: Leases(At(db'.queues, q).acks, w) <= Leases(At(db.queues, q).acks, w)
  {
    if call.maintain {
      forall q, w ensures Leases(At(db'.queues, q).acks, w) <= Leases(At(db.queues, q).acks, w) {
        assert q != call.queue ==> At(db'.queues, q) == At(db.queues, q);
      }
      forall w | HasLeases(db'.queues, w) ensures HasLeases(db.queues, w) {
        var q :| q in db'.queues && Leases(At(db'.queues, q).acks, w) != {};
        assert Leases(At(db.queues, q).acks, w) != {};
      }
    }
  }

  /** The caller has a heartbeat after maintenance unless it swept itself. */
  lemma CallerBeats(db: Db, call: Call, mid: Db)
    requires call.worker in db.beats && db.beats[call.worker] == call.now && Maintained(db, call, mid)
    ensures call.worker in mid.beats <==>
            !(call.maintain && call.heartbeatTimeout <= 0
              && forall q :: q != call.queue ==> Leases(At(db.queues, q).acks, call.worker) == {})
  {
    if call.maintain && call.heartbeatTimeout <= 0 {
      assert call.worker in DeadWorkers(db, call);
      assert Leases(At(mid.queues, call.queue).acks, call.worker) == {};
      if q :| q != call.queue && Leases(At(db.queues, q).acks, call.worker) != {} {
        assert At(mid.queues, q) == At(db.queues, q);
        assert q in mid.queues;
      } else {
        forall q ensures Leases(At(mid.queues, q).acks, call.worker) == {} {
          assert q != call.queue ==> At(mid.queues, q) == At(db.queues, q);
        }
      }
    }
  }

  lemma OnlyFetchLeases(db: Db, call: Call, q: Queue, w: Worker)
    requires !(call.command.Fetch? && q == call.queue && w == call.worker
               && 0 < Taken(At(db.queues, q), call.command.prefetch, call.maxUnpack))
    ensures Leases(At(Execute(db, call).queues, q).acks, w) <= Leases(At(db.queues, q).acks, w)
  {
    if call.command.Requeue? {
      var back := RequeuedIs(At(db.queues, call.queue), call.worker, call.command.ids);
    }
  }

  lemma CommandBeats(db: Db, call: Call)
    requires Beating(db)
    ensures Beating(Execute(db, call)) <==>
            (call.command.Fetch? && 0 < Taken(At(db.queues, call.queue), call.command.prefetch, call.maxUnpack)
             ==> call.worker in db.beats)
  {
    var db', qd := Execute(db, call), At(db.queues, call.queue);
    forall w | HasLeases(db'.queues, w) && !HasLeases(db.queues, w)
      ensures w == call.worker && call.command.Fetch?
              && 0 < Taken(qd, call.command.prefetch, call.maxUnpack)
    {
      var q :| q in db'.queues && Leases(At(db'.queues, q).acks, w) != {};
      assert Leases(At(db.queues, q).acks, w) == {};
      if !(w == call.worker && call.command.Fetch? && q == call.queue
           && 0 < Taken(qd, call.command.prefetch, call.maxUnpack)) {
        OnlyFetchLeases(db, call, q, w);
        assert false;
      }
    }
    if call.command.Fetch? && 0 < Taken(qd, call.command.prefetch, call.maxUnpack) {
      assert qd.list[0] in Leases(At(db'.queues, call.queue).acks, call.worker);
      assert call.queue in db'.queues;
    }
  }

  lemma ListAfterMaintenance(db: Db, call: Call, mid: Db)
    requires Maintained(db, call, mid) && call.maintain
    ensures At(mid.queues, call.queue).list != [] <==>
            At(db.queues, call.queue).list != []
            || exists id, w :: id in At(db.queues, call.queue).msgs && w in DeadWorkers(db, call)
                               && id in Leases(At(db.queues, call.queue).acks, w)
  {
    var qd, list := At(db.queues, call.queue), At(mid.queues, call.queue).list;
    var back := list[|qd.list|..];
    assert list == qd.list + back;
    SomethingInside(back);
  }

  lemma CallBeats(db: Db, call: Call, mid: Db)
    requires Beating(db) && call.worker in db.beats && db.beats[call.worker] == call.now
    requires Maintained(db, call, mid)
    ensures Beating(Execute(mid, call)) <==> !EvictsItself(db, call)
  {
    MaintenanceKeepsBeats(db, call, mid);
    CallerBeats(db, call, mid);
    CommandBeats(mid, call);
    if call.maintain {
      ListAfterMaintenance(db, call, mid);
    }
  }

  /** A holder of leases loses its heartbeat in exactly one way. */
  lemma StepBeats(s: Sys, call: Call, s': Sys)
    requires Beating(s.db) && Step(s, call, s')
    ensures Beating(s'.db) <==> !EvictsItself(Beat(s.db, call), call)
  {
    var mid :| StepVia(s, call, mid, s');
    CallBeats(Beat(s.db, call), call, mid);
  }

  lemma FirstEnqueue(call: Call, id: Id, data: Data) returns (s: Sys)
    requires call.command == Enqueue(id, data) && !call.maintain
    ensures Step(EMPTY, call, s)
    ensures s.db.beats == map[call.worker := call.now] && At(s.db.queues, call.queue).list == [id]
    ensures forall q, w :: Leases(At(s.db.queues, q).acks, w) == {}
    ensures Letters(s.db.dead, call.queue.name) == DeadLetters(map[], map[])
  {
    var db := Beat(EMPTY.db, call);
    s := Sys(Execute(db, call), Move(Tidy(EMPTY.st, db, call), db, call));
    assert StepVia(EMPTY, call, db, s);
  }

  /** A worker with a heartbeat timeout of zero, and nothing leased yet. */
  lemma EvictsOnFetch(s: Sys, call: Call) returns (s': Sys)
    requires call.command == Fetch(1) && call.maintain && call.heartbeatTimeout == 0 && 0 < call.maxUnpack
    requires s.db.beats == map[call.worker := call.now] && At(s.db.queues, call.queue).list != []
    requires forall q, w :: Leases(At(s.db.queues, q).acks, w) == {}
    requires Letters(s.db.dead, call.queue.name) == DeadLetters(map[], map[])
    ensures Step(s, call, s') && !Beating(s'.db)
  {
    hide Execute, Move;
    var db := Beat(s.db, call);
    var mid := db.(beats := map[]);
    assert db == s.db;
    NothingToSweep(db, call, mid);
    s' := Sys(Execute(mid, call), Move(Tidy(s.st, db, call), mid, call));
    assert StepVia(s, call, mid, s');
    StepBeats(s, call, s');
  }

  /** With a timeout of zero it does happen: two calls of one worker. */
  lemma ZeroTimeoutEvicts(w: Worker, q: Queue, id: Id) returns (states: seq<Sys>, calls: seq<Call>)
    ensures Run(states, calls) && !Beating(states[|calls|].db)
  {
    hide Step, Beating;
    var call0 := Call(Enqueue(id, Malformed), 0, q, w, 0, 0, false, 1);
    var call1 := Call(Fetch(1), 0, q, w, 0, 0, true, 1);
    var s1 := FirstEnqueue(call0, id, Malformed);
    var s2 := EvictsOnFetch(s1, call1);
    states, calls := [EMPTY, s1, s2], [call0, call1];
    assert StepAt(states, calls, 0) && StepAt(states, calls, 1);
  }

  lemma NothingToSweep(db: Db, call: Call, mid: Db)
    requires db.beats == map[call.worker := call.now] && call.maintain && call.heartbeatTimeout == 0
    requires forall q, w :: Leases(At(db.queues, q).acks, w) == {}
    requires Letters(db.dead, call.queue.name) == DeadLetters(map[], map[])
    requires mid == db.(beats := map[])
    ensures Maintained(db, call, mid)
  {
    var qd := At(db.queues, call.queue);
    assert qd.list[|qd.list|..] == [];
    assert forall w :: !HasLeases(mid.queues, w);
    assert DeadWorkers(db, call) == {call.worker};
  }

  ghost predicate PatientCalls(calls: seq<Call>) {
    forall i :: 0 <= i < |calls| ==> 0 < calls[i].heartbeatTimeout
  }

  /** With positive heartbeat timeouts, whoever holds a lease on any queue is
      in the heartbeat set, where maintenance can find it. */
  lemma {:induction false} HoldersBeat(states: seq<Sys>, calls: seq<Call>, i: nat)
    requires Run(states, calls) && PatientCalls(calls) && i < |states|
    ensures Beating(states[i].db)
    ensures forall q, w :: Leases(At(states[i].db.queues, q).acks, w) != {} ==> w in states[i].db.beats
  {
    hide Step;
    if i > 0 {
      HoldersBeat(states, calls, i - 1);
      assert StepAt(states, calls, i - 1);
      StepBeats(states[i - 1], calls[i - 1], states[i]);
    }
  }

  // ----- maintenance returns the leases of silent workers

  ghost predicate Returns(s: Status, call: Call, overdue: bool, s': Status)
    requires s.Leased?
  {
    if overdue
    then s' == Queued(s.queue) || (call.command.Fetch? && s' == Leased(s.queue, call.worker))
    else s' == s
  }

  lemma MovedBack(mid: Db, call: Call, id: Id, w: Worker, t: Status)
    requires w != call.worker && !call.command.Purge?
    requires call.command.Enqueue? ==> call.command.id != id
    requires OnQueue(At(mid.queues, call.queue), call.queue, id, t)
    requires t == Queued(call.queue) || t == Leased(call.queue, w)
    ensures Returns(Leased(call.queue, w), call, t.Queued?, MovedOn(mid, call, id, t))
  {
  }

  lemma NotTheNewId(s: Sys, call: Call, mid: Db, s': Sys, id: Id)
    requires StepVia(s, call, mid, s') && StatusOf(s.st, id) != Unknown
    ensures call.command.Enqueue? ==> call.command.id != id
  {
  }

  lemma LeaseReturns(s: Sys, call: Call, s': Sys, id: Id, w: Worker)
    requires Agree(s.db, s.st) && Step(s, call, s')
    requires call.maintain && w != call.worker && !call.command.Purge?
    requires StatusOf(s.st, id) == Leased(call.queue, w) && w in s.db.beats
    ensures Returns(Leased(call.queue, w), call, s.db.beats[w] <= call.now - call.heartbeatTimeout,
                    StatusOf(s'.st, id))
  {
    hide Agree, StepVia, OnQueue, OnLetters, StatusOf, At, Returns;
    var mid :| StepVia(s, call, mid, s');
    var t := StepOn(s, call, mid, s', id);
    assert OnQueue(At(mid.queues, call.queue), call.queue, id, t);
    assert call.command.Enqueue? ==> call.command.id != id by { NotTheNewId(s, call, mid, s', id); }
    MovedBack(mid, call, id, w, t);
  }

  lemma HolderBeats(db: Db, id: Id, q: Queue, w: Worker)
    requires AgreeOn(db, id, Leased(q, w)) && Beating(db)
    ensures w in db.beats
  {
    assert OnQueue(At(db.queues, q), q, id, Leased(q, w));
    assert id in Leases(At(db.queues, q).acks, w);
  }

  /** Whoever holds a message, once its last heartbeat is `heartbeatTimeout`
      old, another worker's maintenance of that queue gives the message back
      (and a fetch in the same call may take it at once); until then it does
      not. */
  lemma SilentLeaseReturns(states: seq<Sys>, calls: seq<Call>, i: nat, id: Id, w: Worker)
    requires Run(states, calls) && PatientCalls(calls) && i < |calls|
    requires calls[i].maintain && w != calls[i].worker && !calls[i].command.Purge?
    requires StatusOf(states[i].st, id) == Leased(calls[i].queue, w)
    ensures w in states[i].db.beats
    ensures Returns(Leased(calls[i].queue, w), calls[i],
                    states[i].db.beats[w] <= calls[i].now - calls[i].heartbeatTimeout,
                    StatusOf(states[i + 1].st, id))
  {
    RunAgrees(states, calls, i);
    HoldersBeat(states, calls, i);
    HolderBeats(states[i].db, id, calls[i].queue, w);
    assert StepAt(states, calls, i);
    LeaseReturns(states[i], calls[i], states[i + 1], id, w);
  }

  /** Maintenance never takes the caller's own leases. */
  lemma OwnLeaseStays(s: Sys, call: Call, mid: Db, s': Sys, id: Id)
    requires Agree(s.db, s.st) && StepVia(s, call, mid, s') && 0 < call.heartbeatTimeout
    requires StatusOf(s.st, id).Leased? && StatusOf(s.st, id).worker == call.worker
    ensures AgreeOn(mid, id, StatusOf(s.st, id))
  {
    var t := StepOn(s, call, mid, s', id);
  }

  // ----- the queue size

  /** The live leases on a queue, over all workers. */
  function Held(qd: QueueDb): set<Id> {
    set id | id in qd.msgs && exists w :: w in qd.acks && id in Leases(qd.acks, w)
  }

  lemma QueuedOrHeld(qd: QueueDb)
    requires Sound(qd)
    ensures qd.msgs.Keys == Elements(qd.list) + Held(qd) && Elements(qd.list) !! Held(qd)
  {
    forall id | id in qd.msgs && id !in qd.list ensures id in Held(qd) {
      var w :| id in Leases(qd.acks, w);
      assert w in qd.acks;
    }
  }

  /** Every stored payload is queued or held: the hash size counts both. */
  lemma PayloadsCount(qd: QueueDb)
    requires Sound(qd)
    ensures |qd.msgs| == |qd.list| + |Held(qd)|
  {
    DistinctSize(qd.list);
    QueuedOrHeld(qd);
    assert |qd.msgs| == |qd.msgs.Keys|;
  }

  /** What `qsize` reports in any reachable state. */
  lemma SizeCounts(states: seq<Sys>, calls: seq<Call>, i: nat, w: Worker, name: string)
    requires Run(states, calls) && i < |states|
    ensures var q, dq := At(states[i].db.queues, Queue(name, false)), At(states[i].db.queues, Queue(name, true));
            QueueSize(states[i].db, w, name)
            == (|q.list| + |Held(q)|) + (|dq.list| + |Held(dq)|) + |Leases(q.acks, w)| + |Leases(dq.acks, w)|
  {
    LeaseInvariant(states, calls, i, Queue(name, false));
    LeaseInvariant(states, calls, i, Queue(name, true));
    PayloadsCount(At(states[i].db.queues, Queue(name, false)));
    PayloadsCount(At(states[i].db.queues, Queue(name, true)));
  }

  /** `join` returns exactly when nothing on the queue or its delay queue is
      unfinished at any worker and the caller holds no lease there, not even a
      stale one. */
  lemma SizeZero(db: Db, st: Statuses, w: Worker, name: string)
    requires Agree(db, st)
    ensures QueueSize(db, w, name) == 0 <==>
            && (forall id :: StatusOf(st, id).Live() ==> StatusOf(st, id).queue.name != name)
            && Leases(At(db.queues, Queue(name, false)).acks, w) == {}
            && Leases(At(db.queues, Queue(name, true)).acks, w) == {}
  {
    var q, dq := Queue(name, false), Queue(name, true);
    forall id ensures StatusOf(st, id).Live() && StatusOf(st, id).queue.name == name
                      <==> id in At(db.queues, q).msgs || id in At(db.queues, dq).msgs {
      assert AgreeOn(db, id, StatusOf(st, id));
      assert OnQueue(At(db.queues, q), q, id, StatusOf(st, id));
      assert OnQueue(At(db.queues, dq), dq, id, StatusOf(st, id));
    }
    assert |At(db.queues, q).msgs| == 0 <==> forall id :: id !in At(db.queues, q).msgs;
    assert |At(db.queues, dq).msgs| == 0 <==> forall id :: id !in At(db.queues, dq).msgs;
  }
}
