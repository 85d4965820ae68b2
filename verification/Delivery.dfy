/** What a queue delivers: the payloads that were enqueued, first come first
    served. */
module Delivery {
  import opened Keyspace
  import opened Sequences
  import opened DispatchSpec
  import opened Effects
  import opened Lifecycle

  // ----- payloads

  /** Wherever the id has a payload, as a message or a dead letter, it is `data`. */
  ghost predicate Carries(db: Db, id: Id, data: Data) {
    && (forall q :: id in At(db.queues, q).msgs ==> At(db.queues, q).msgs[id] == data)
    && (forall n :: id in Letters(db.dead, n).msgs ==> Letters(db.dead, n).msgs[id] == data)
  }

  lemma MaintenanceCarries(db: Db, call: Call, mid: Db, id: Id, data: Data)
    requires Carries(db, id, data) && Maintained(db, call, mid)
    ensures Carries(mid, id, data)
  {
    if call.maintain {
      forall q ensures At(mid.queues, q).msgs == At(db.queues, q).msgs {
        assert q != call.queue ==> At(mid.queues, q) == At(db.queues, q);
      }
      forall n | id in Letters(mid.dead, n).msgs ensures Letters(mid.dead, n).msgs[id] == data {
        assert id in Letters(db.dead, n).msgs;
      }
    }
  }

  lemma QueueCarries(qd: QueueDb, call: Call, id: Id, data: Data)
    requires id in qd.msgs ==> qd.msgs[id] == data
    requires call.command.Enqueue? && call.command.id == id ==> call.command.data == data
    ensures id in QueueAfter(qd, call).msgs ==> QueueAfter(qd, call).msgs[id] == data
  {
    if call.command.Requeue? {
      var back := RequeuedIs(qd, call.worker, call.command.ids);
    }
  }

  lemma LettersCarry(qd: QueueDb, letters: DeadLetters, call: Call, id: Id, data: Data)
    requires id in qd.msgs ==> qd.msgs[id] == data
    requires id in letters.msgs ==> letters.msgs[id] == data
    ensures id in LettersAfter(qd, letters, call).msgs ==> LettersAfter(qd, letters, call).msgs[id] == data
  {
  }

  lemma CommandCarries(db: Db, call: Call, id: Id, data: Data)
    requires Carries(db, id, data)
    requires call.command.Enqueue? && call.command.id == id ==> call.command.data == data
    ensures Carries(Execute(db, call), id, data)
  {
    var db', qd := Execute(db, call), At(db.queues, call.queue);
    hide Execute, QueueAfter, LettersAfter;
    ExecuteIs(db, call);
    forall q | id in At(db'.queues, q).msgs ensures At(db'.queues, q).msgs[id] == data {
      QueueCarries(At(db.queues, q), call, id, data);
    }
    forall n | id in Letters(db'.dead, n).msgs ensures Letters(db'.dead, n).msgs[id] == data {
      LettersCarry(qd, Letters(db.dead, n), call, id, data);
    }
  }

  lemma ExecuteIs(db: Db, call: Call)
    ensures var db' := Execute(db, call);
            && (forall q :: At(db'.queues, q)
                            == if q == call.queue then QueueAfter(At(db.queues, q), call) else At(db.queues, q))
            && (forall n :: Letters(db'.dead, n)
                            == if n == call.queue.name
                               then LettersAfter(At(db.queues, call.queue), Letters(db.dead, n), call)
                               else Letters(db.dead, n))
  {
  }

  lemma StepCarries(s: Sys, call: Call, s': Sys, id: Id, data: Data)
    requires Agree(s.db, s.st) && Step(s, call, s')
    requires if id in s.st then Carries(s.db, id, data) else call.command == Enqueue(id, data)
    ensures id in s'.st && Carries(s'.db, id, data)
  {
    hide Carries, Agree, Execute;
    var mid :| StepVia(s, call, mid, s');
    var db := Beat(s.db, call);
    assert Carries(db, id, data) by {
      if id in s.st {
        BeatCarries(s.db, call, id, data);
      } else {
        BeatAgrees(s, call);
        UnknownCarries(db, s.st, id, data);
      }
    }
    MaintenanceCarries(db, call, mid, id, data);
    CommandCarries(mid, call, id, data);
  }

  lemma BeatCarries(db: Db, call: Call, id: Id, data: Data)
    requires Carries(db, id, data)
    ensures Carries(Beat(db, call), id, data)
  {
  }

  lemma UnknownCarries(db: Db, st: Statuses, id: Id, data: Data)
    requires Agree(db, st) && id !in st
    ensures Carries(db, id, data)
  {
    assert AgreeOn(db, id, StatusOf(st, id));
    forall q ensures id !in At(db.queues, q).msgs {
      assert OnQueue(At(db.queues, q), q, id, Unknown);
    }
    forall n ensures id !in Letters(db.dead, n).msgs {
      assert OnLetters(Letters(db.dead, n), n, id, Unknown);
    }
  }

  lemma EnqueuesNew(s: Sys, call: Call, s': Sys)
    requires Step(s, call, s')
    ensures Enabled(s.st, call)
  {
  }

  /** From its enqueue on, over every run, a message has only the payload that
      it was enqueued with, on its queue and among the dead letters. */
  lemma {:induction false} PayloadsLast(states: seq<Sys>, calls: seq<Call>, i: nat, j: nat, id: Id, data: Data)
    requires Run(states, calls) && i < j < |states|
    requires calls[i].command == Enqueue(id, data)
    ensures id in states[j].st && Carries(states[j].db, id, data)
    decreases j
  {
    hide Agree, Step, Carries;
    RunAgrees(states, calls, j - 1);
    assert StepAt(states, calls, j - 1);
    if i < j - 1 {
      PayloadsLast(states, calls, i, j - 1, id, data);
    } else {
      EnqueuesNew(states[i], calls[i], states[j]);
    }
    StepCarries(states[j - 1], calls[j - 1], states[j], id, data);
  }

  /** So a fetch answers with what was enqueued. */
  lemma FetchGivesWhatWasEnqueued(
    states: seq<Sys>, calls: seq<Call>, i: nat, j: nat, mid: Db, k: nat, id: Id, data: Data)
    requires Run(states, calls) && i < j < |calls|
    requires calls[i].command == Enqueue(id, data) && calls[j].command.Fetch?
    requires StepVia(states[j], calls[j], mid, states[j + 1])
    requires k < |Answer(mid, calls[j]).found| && At(mid.queues, calls[j].queue).list[k] == id
    ensures Answer(mid, calls[j]).found[k] == Some(data)
  {
    PayloadsLast(states, calls, i, j, id, data);
    FetchFindsPayloads(states, calls, j, mid);
    BeatCarries(states[j].db, calls[j], id, data);
    MaintenanceCarries(Beat(states[j].db, calls[j]), calls[j], mid, id, data);
  }

  // ----- order

  lemma CommandKeepsOrder(qd: QueueDb, call: Call, a: Id, b: Id)
    requires Distinct(qd.list) && Before(qd.list, a, b) && a in QueueAfter(qd, call).list
    ensures Before(QueueAfter(qd, call).list, a, b)
  {
    match call.command
    case Requeue(ids) =>
      var back := RequeuedIs(qd, call.worker, ids);
      BeforeGrows(qd.list, qd.list + back, a, b);
    case Enqueue(id, _) => BeforeGrows(qd.list, qd.list + [id], a, b);
    case Fetch(prefetch) => BeforeShrinks(qd.list, Taken(qd, prefetch, call.maxUnpack), a, b);
    case _ =>
  }

  lemma MaintenanceKeepsOrder(db: Db, call: Call, mid: Db, q: Queue, a: Id, b: Id)
    requires Maintained(db, call, mid) && Before(At(db.queues, q).list, a, b)
    ensures Before(At(mid.queues, q).list, a, b)
  {
    if call.maintain {
      assert q != call.queue ==> At(mid.queues, q) == At(db.queues, q);
      BeforeGrows(At(db.queues, q).list, At(mid.queues, q).list, a, b);
    }
  }

  lemma StepKeepsOrder(s: Sys, call: Call, s': Sys, q: Queue, a: Id, b: Id)
    requires Agree(s.db, s.st) && Step(s, call, s')
    requires Before(At(s.db.queues, q).list, a, b) && a in At(s'.db.queues, q).list
    ensures Before(At(s'.db.queues, q).list, a, b)
  {
    hide Before, Execute, Swept;
    var mid :| StepVia(s, call, mid, s');
    BeatAgrees(s, call);
    MaintenanceRefines(Beat(s.db, call), s.st, call, mid);
    MaintenanceKeepsOrder(Beat(s.db, call), call, mid, q, a, b);
    ExecuteIs(mid, call);
    if q == call.queue {
      CommandKeepsOrder(At(mid.queues, q), call, a, b);
    }
  }

  /** No overtaking: while a message waits on the list, whatever was behind it
      waits there too, still behind it. */
  lemma {:induction false} NoOvertaking(states: seq<Sys>, calls: seq<Call>, i: nat, j: nat, q: Queue, a: Id, b: Id)
    requires Run(states, calls) && i <= j < |states|
    requires Before(At(states[i].db.queues, q).list, a, b)
    requires forall k :: i <= k <= j ==> a in At(states[k].db.queues, q).list
    ensures Before(At(states[j].db.queues, q).list, a, b)
    decreases j
  {
    hide Agree, Step, Before;
    if i < j {
      NoOvertaking(states, calls, i, j - 1, q, a, b);
      RunAgrees(states, calls, j - 1);
      assert StepAt(states, calls, j - 1);
      StepKeepsOrder(states[j - 1], calls[j - 1], states[j], q, a, b);
    }
  }

  /** What a command adds to the list goes to its end. */
  lemma CommandAppends(qd: QueueDb, call: Call, a: Id, b: Id)
    requires a in qd.list && a in QueueAfter(qd, call).list
    requires b !in qd.list && b in QueueAfter(qd, call).list
    ensures Before(QueueAfter(qd, call).list, a, b)
  {
    match call.command
    case Requeue(ids) =>
      var back := RequeuedIs(qd, call.worker, ids);
      BeforeAppended(qd.list, back, a, b);
    case Enqueue(id, _) => BeforeAppended(qd.list, [id], a, b);
    case _ =>
  }

  /** Whatever arrives on a list, by an enqueue, a requeue or maintenance, arrives
      behind all that was there and stays. */
  lemma ArrivesLast(s: Sys, call: Call, s': Sys, q: Queue, a: Id, b: Id)
    requires Agree(s.db, s.st) && Step(s, call, s')
    requires a in At(s.db.queues, q).list && a in At(s'.db.queues, q).list
    requires b !in At(s.db.queues, q).list && b in At(s'.db.queues, q).list
    ensures Before(At(s'.db.queues, q).list, a, b)
  {
    hide Before, Execute, Returned, Agree;
    var mid :| StepVia(s, call, mid, s');
    var db := Beat(s.db, call);
    BeatAgrees(s, call);
    MaintenanceRefines(db, s.st, call, mid);
    DistinctList(mid, Tidy(s.st, db, call), q);
    ExecuteIs(mid, call);
    var list, list' := At(db.queues, q).list, At(mid.queues, q).list;
    assert list <= list' && (q != call.queue ==> list' == list) by { OnlyOwnList(db, call, mid, q); }
    assert list' == list + list'[|list|..];
    if b in list' {
      BeforeAppended(list, list'[|list|..], a, b);
      if q == call.queue {
        CommandKeepsOrder(At(mid.queues, q), call, a, b);
      }
    } else {
      CommandAppends(At(mid.queues, q), call, a, b);
    }
  }

  lemma DistinctList(db: Db, st: Statuses, q: Queue)
    requires Agree(db, st)
    ensures Distinct(At(db.queues, q).list)
  {
  }

  lemma OnlyOwnList(db: Db, call: Call, mid: Db, q: Queue)
    requires Maintained(db, call, mid)
    ensures At(db.queues, q).list <= At(mid.queues, q).list
    ensures q != call.queue ==> At(mid.queues, q) == At(db.queues, q)
  {
  }

  /** First in, first out: a message that is enqueued while another one waits is
      behind it for as long as that one waits. */
  lemma FirstInFirstOut(states: seq<Sys>, calls: seq<Call>, i: nat, j: nat, q: Queue, a: Id, b: Id, data: Data)
    requires Run(states, calls) && i < j < |states|
    requires calls[i].command == Enqueue(b, data) && calls[i].queue == q
    requires forall k :: i <= k <= j ==> a in At(states[k].db.queues, q).list
    ensures Before(At(states[j].db.queues, q).list, a, b)
  {
    hide Agree, Before, Step;
    RunAgrees(states, calls, i);
    assert StepAt(states, calls, i);
    EnqueueLists(states[i], calls[i], states[i + 1], b, data);
    ArrivesLast(states[i], calls[i], states[i + 1], q, a, b);
    NoOvertaking(states, calls, i + 1, j, q, a, b);
  }

  lemma EnqueueLists(s: Sys, call: Call, s': Sys, id: Id, data: Data)
    requires Agree(s.db, s.st) && Step(s, call, s') && call.command == Enqueue(id, data)
    ensures id !in At(s.db.queues, call.queue).list && id in At(s'.db.queues, call.queue).list
  {
    hide Agree;
    var mid :| StepVia(s, call, mid, s');
    NotListed(s.db, s.st, id, call.queue);
    EnqueueAppends(mid, call, id, data);
    var list := At(s'.db.queues, call.queue).list;
    assert list[|list| - 1] == id;
  }

  lemma NotListed(db: Db, st: Statuses, id: Id, q: Queue)
    requires Agree(db, st) && id !in st
    ensures id !in At(db.queues, q).list
  {
    assert AgreeOn(db, id, StatusOf(st, id));
    assert OnQueue(At(db.queues, q), q, id, StatusOf(st, id));
  }

  /** And a fetch that takes the one behind takes the other one before it, so that
      both payloads are in the reply in this order. */
  lemma FetchedInOrder(s: Sys, call: Call, mid: Db, s': Sys, a: Id, b: Id)
    returns (found: seq<Option<Data>>, ids: seq<Id>, rest: seq<Id>)
    requires Agree(s.db, s.st) && StepVia(s, call, mid, s') && call.command.Fetch?
    requires Before(At(s.db.queues, call.queue).list, a, b) && b !in At(s'.db.queues, call.queue).list
    ensures Answer(mid, call) == Messages(found) && |ids| == |found|
    ensures forall i :: 0 <= i < |ids| ==>
              var msgs := At(mid.queues, call.queue).msgs; ids[i] in msgs && found[i] == Some(msgs[ids[i]])
    ensures Before(ids, a, b)
  {
    hide Before, Agree, Execute;
    BeatAgrees(s, call);
    MaintenanceRefines(Beat(s.db, call), s.st, call, mid);
    DistinctList(mid, Tidy(s.st, Beat(s.db, call), call), call.queue);
    MaintenanceKeepsOrder(Beat(s.db, call), call, mid, call.queue, a, b);
    found, ids, rest := FetchTakesHead(mid, call);
    AgreeIsSound(mid, Tidy(s.st, Beat(s.db, call), call), call.queue);
    var list := At(mid.queues, call.queue).list;
    assert list[..|ids|] == ids && b in list by { BeforeListed(list, a, b); }
    BeforeInHead(list, |ids|, a, b);
  }

  lemma BeforeListed(list: seq<Id>, a: Id, b: Id)
    requires Before(list, a, b)
    ensures a in list && b in list
  {
  }
}
