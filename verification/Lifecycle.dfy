/** The life of one stored message, as a state machine over its id, and the
    proof that the script's database refines it. */
module Lifecycle {
  import opened Keyspace
  import opened Sequences
  import opened DispatchSpec

  datatype Status =
    | Unknown
    | Queued(queue: Queue)
    | Leased(queue: Queue, worker: Worker)
    | Dead(name: string, since: nat)
    | Acked
    | Expired
    | Purged
  {
    predicate Live() { Queued? || Leased? }
    predicate Finished() { Acked? || Dead? || Expired? || Purged? }
  }

  type Statuses = map<Id, Status>

  function StatusOf(st: Statuses, id: Id): Status {
    if id in st then st[id] else Unknown
  }

  /** The script's database with the history of every id ever enqueued. */
  datatype Sys = Sys(db: Db, st: Statuses)

  // ----- the abstract machine: what one call does to one id

  function Tidied(s: Status, dead: set<Worker>, call: Call): Status {
    match s
    case Leased(q, w) => if q == call.queue && w in dead then Queued(q) else s
    case Dead(name, since) =>
      if name == call.queue.name && since <= call.now - call.deadTtl then Expired else s
    case _ => s
  }

  /** `taken` are the ids that a fetch finds at the head of the list. */
  function Moved(id: Id, s: Status, taken: set<Id>, call: Call): Status {
    var q, mine := call.queue, Leased(call.queue, call.worker);
    match call.command
    case Enqueue(_, _) => s
    case Fetch(_) => if id in taken then mine else s
    case Requeue(ids) => if id in ids && s == mine then Queued(q) else s
    case Ack(i) => if id == i && s == mine then Acked else s
    case Nack(i) => if id == i && s == mine then Dead(q.name, call.now) else s
    case Purge =>
      if (s.Live() && s.queue == q) || (s.Dead? && s.name == q.name) then Purged else s
    case QSize => s
  }

  function Tidy(st: Statuses, db: Db, call: Call): Statuses {
    if call.maintain then map id | id in st :: Tidied(st[id], DeadWorkers(db, call), call) else st
  }

  function Move(st: Statuses, db: Db, call: Call): Statuses {
    var moved := map id | id in st :: Moved(id, st[id], HeadOf(At(db.queues, call.queue), call), call);
    match call.command
    case Enqueue(id, _) => moved[id := Queued(call.queue)]
    case _ => moved
  }

  // ----- the refinement relation

  /** What a queue knows of an id.  A purge leaves other workers' leases
      behind, without a payload. */
  ghost predicate OnQueue(qd: QueueDb, q: Queue, id: Id, s: Status) {
    && (id in qd.list <==> s == Queued(q))
    && (id in qd.msgs <==> s.Live() && s.queue == q)
    && (forall w :: id in Leases(qd.acks, w) ==> s == Leased(q, w) || s == Purged)
    && (s.Leased? && s.queue == q ==> id in Leases(qd.acks, s.worker))
    && (forall w, v :: id in Leases(qd.acks, w) && id in Leases(qd.acks, v) ==> w == v)
  }

  ghost predicate OnLetters(letters: DeadLetters, n: string, id: Id, s: Status) {
    && (id in letters.scores <==> s.Dead? && s.name == n)
    && (id in letters.scores ==> letters.scores[id] == s.since)
    && (id in letters.scores <==> id in letters.msgs)
  }

  ghost predicate AgreeOn(db: Db, id: Id, s: Status) {
    && (forall q :: OnQueue(At(db.queues, q), q, id, s))
    && (forall n :: OnLetters(Letters(db.dead, n), n, id, s))
  }

  ghost predicate Agree(db: Db, st: Statuses) {
    && (forall q :: Distinct(At(db.queues, q).list))
    && (forall id :: AgreeOn(db, id, StatusOf(st, id)))
  }

  /** Every id is new when it is enqueued, as the broker's UUIDs are. */
  predicate Enabled(st: Statuses, call: Call) {
    call.command.Enqueue? ==> call.command.id !in st
  }

  ghost predicate StepVia(s: Sys, call: Call, mid: Db, s': Sys) {
    && Enabled(s.st, call)
    && Maintained(Beat(s.db, call), call, mid)
    && s'.db == Execute(mid, call)
    && s'.st == Move(Tidy(s.st, Beat(s.db, call), call), mid, call)
  }

  ghost predicate Step(s: Sys, call: Call, s': Sys) {
    exists mid :: StepVia(s, call, mid, s')
  }

  // ----- maintenance refines Tidy

  /** Maintenance puts on the list exactly what dead workers held. */
  lemma SweepRefines(qd: QueueDb, dead: set<Worker>, qd': QueueDb, call: Call, id: Id, s: Status)
    requires OnQueue(qd, call.queue, id, s) && QueueSwept(qd, dead, qd')
    ensures OnQueue(qd', call.queue, id, Tidied(s, dead, call))
  {
    var back := qd'.list[|qd.list|..];
    assert qd'.list == qd.list + back;
    if id in back {
      var w :| w in dead && id in Leases(qd.acks, w);
      assert s == Leased(call.queue, w);
    }
  }

  lemma TidyRefinesOn(db: Db, call: Call, db': Db, id: Id, s: Status)
    requires AgreeOn(db, id, s) && Swept(db, call, db')
    ensures AgreeOn(db', id, Tidied(s, DeadWorkers(db, call), call))
  {
    var dead := DeadWorkers(db, call);
    forall q ensures OnQueue(At(db'.queues, q), q, id, Tidied(s, dead, call)) {
      assert OnQueue(At(db.queues, q), q, id, s);
      if q == call.queue {
        SweepRefines(At(db.queues, q), dead, At(db'.queues, q), call, id, s);
      } else {
        assert At(db'.queues, q) == At(db.queues, q);
      }
    }
    forall n ensures OnLetters(Letters(db'.dead, n), n, id, Tidied(s, dead, call)) {
      assert OnLetters(Letters(db.dead, n), n, id, s);
    }
  }

  lemma TidyKeepsDistinct(db: Db, st: Statuses, call: Call, db': Db)
    requires Agree(db, st) && Swept(db, call, db')
    ensures Distinct(At(db'.queues, call.queue).list)
  {
    var list, list' := At(db.queues, call.queue).list, At(db'.queues, call.queue).list;
    var back := list'[|list|..];
    forall id | id in list ensures id !in back {
      assert AgreeOn(db, id, StatusOf(st, id));
      assert OnQueue(At(db.queues, call.queue), call.queue, id, StatusOf(st, id));
    }
    DistinctAppend(list, back);
    assert list' == list + back;
  }

  function TidiedOn(s: Status, db: Db, call: Call): Status {
    if call.maintain then Tidied(s, DeadWorkers(db, call), call) else s
  }

  lemma TidyOn(st: Statuses, db: Db, call: Call, id: Id)
    ensures StatusOf(Tidy(st, db, call), id) == TidiedOn(StatusOf(st, id), db, call)
  {
  }

  lemma MaintenanceRefines(db: Db, st: Statuses, call: Call, db': Db)
    requires Agree(db, st) && Maintained(db, call, db')
    ensures Agree(db', Tidy(st, db, call))
  {
    if call.maintain {
      TidyKeepsDistinct(db, st, call, db');
      forall id ensures AgreeOn(db', id, StatusOf(Tidy(st, db, call), id)) {
        assert AgreeOn(db, id, StatusOf(st, id));
        TidyRefinesOn(db, call, db', id, StatusOf(st, id));
        TidyOn(st, db, call, id);
      }
    }
  }

  // ----- commands refine Move

  /** Requeueing gives up the listed leases and appends the ones that still
      have a payload, each once however often it is listed. */
  lemma {:induction false} RequeuedIs(qd: QueueDb, w: Worker, ids: seq<Id>) returns (back: seq<Id>)
    ensures Requeued(qd, w, ids).list == qd.list + back
    ensures Requeued(qd, w, ids).msgs == qd.msgs
    ensures forall v :: Leases(Requeued(qd, w, ids).acks, v)
                        == if v == w then Leases(qd.acks, w) - Elements(ids) else Leases(qd.acks, v)
    ensures Distinct(back)
    ensures forall id :: id in back <==> id in ids && id in Leases(qd.acks, w) && id in qd.msgs
  {
    if ids == [] {
      back := [];
    } else {
      var front, last := ids[..|ids| - 1], ids[|ids| - 1];
      assert ids == front + [last];
      var earlier := RequeuedIs(qd, w, front);
      var before := Requeued(qd, w, front);
      back := if last in Leases(before.acks, w) && last in qd.msgs then earlier + [last] else earlier;
      assert qd.list + (earlier + [last]) == before.list + [last];
    }
  }

  /** What a command does to one id, `taken` being what a fetch takes. */
  function MovedTo(id: Id, s: Status, taken: set<Id>, call: Call): Status {
    if call.command.Enqueue? && id == call.command.id then Queued(call.queue) else Moved(id, s, taken, call)
  }

  function HeadOf(qd: QueueDb, call: Call): set<Id> {
    match call.command
    case Fetch(prefetch) => Elements(qd.list[..Taken(qd, prefetch, call.maxUnpack)])
    case _ => {}
  }

  lemma RequeueRefines(qd: QueueDb, call: Call, id: Id, s: Status)
    requires OnQueue(qd, call.queue, id, s) && call.command.Requeue?
    ensures OnQueue(QueueAfter(qd, call), call.queue, id, MovedTo(id, s, {}, call))
  {
    var back := RequeuedIs(qd, call.worker, call.command.ids);
  }

  lemma FetchRefines(qd: QueueDb, call: Call, id: Id, s: Status)
    requires OnQueue(qd, call.queue, id, s) && Distinct(qd.list) && call.command.Fetch?
    ensures OnQueue(QueueAfter(qd, call), call.queue, id, MovedTo(id, s, HeadOf(qd, call), call))
  {
    DistinctSplit(qd.list, Taken(qd, call.command.prefetch, call.maxUnpack));
  }

  lemma SettleRefines(qd: QueueDb, call: Call, id: Id, s: Status)
    requires OnQueue(qd, call.queue, id, s) && (call.command.Ack? || call.command.Nack?)
    ensures OnQueue(QueueAfter(qd, call), call.queue, id, MovedTo(id, s, {}, call))
  {
  }

  lemma QueueRefines(qd: QueueDb, call: Call, id: Id, s: Status)
    requires OnQueue(qd, call.queue, id, s) && Distinct(qd.list)
    requires call.command.Enqueue? && id == call.command.id ==> s == Unknown
    ensures OnQueue(QueueAfter(qd, call), call.queue, id, MovedTo(id, s, HeadOf(qd, call), call))
  {
    if call.command.Requeue? {
      RequeueRefines(qd, call, id, s);
    } else if call.command.Fetch? {
      FetchRefines(qd, call, id, s);
    } else if call.command.Ack? || call.command.Nack? {
      SettleRefines(qd, call, id, s);
    }
  }

  lemma OtherQueueRefines(qd: QueueDb, p: Queue, call: Call, id: Id, s: Status, taken: set<Id>)
    requires OnQueue(qd, p, id, s) && p != call.queue
    requires id in taken ==> s == Queued(call.queue)
    requires call.command.Enqueue? && id == call.command.id ==> s == Unknown
    ensures OnQueue(qd, p, id, MovedTo(id, s, taken, call))
  {
  }

  lemma LettersRefine(qd: QueueDb, letters: DeadLetters, call: Call, id: Id, s: Status, taken: set<Id>)
    requires OnQueue(qd, call.queue, id, s) && OnLetters(letters, call.queue.name, id, s)
    requires id in taken ==> s == Queued(call.queue)
    requires call.command.Enqueue? && id == call.command.id ==> s == Unknown
    ensures OnLetters(LettersAfter(qd, letters, call), call.queue.name, id, MovedTo(id, s, taken, call))
  {
  }

  lemma OtherLettersRefine(letters: DeadLetters, n: string, call: Call, id: Id, s: Status, taken: set<Id>)
    requires OnLetters(letters, n, id, s) && n != call.queue.name
    requires id in taken ==> s == Queued(call.queue)
    requires call.command.Enqueue? && id == call.command.id ==> s == Unknown
    ensures OnLetters(letters, n, id, MovedTo(id, s, taken, call))
  {
  }

  function MovedOn(db: Db, call: Call, id: Id, s: Status): Status {
    MovedTo(id, s, HeadOf(At(db.queues, call.queue), call), call)
  }

  lemma CommandRefinesOn(db: Db, call: Call, id: Id, s: Status)
    requires AgreeOn(db, id, s)
    requires Distinct(At(db.queues, call.queue).list)
    requires call.command.Enqueue? && id == call.command.id ==> s == Unknown
    ensures AgreeOn(Execute(db, call), id, MovedOn(db, call, id, s))
  {
    var qd := At(db.queues, call.queue);
    var taken, db' := HeadOf(qd, call), Execute(db, call);
    assert OnQueue(qd, call.queue, id, s);
    assert id in taken ==> id in qd.list;
    forall q ensures OnQueue(At(db'.queues, q), q, id, MovedTo(id, s, taken, call)) {
      assert OnQueue(At(db.queues, q), q, id, s);
      if q == call.queue {
        QueueRefines(qd, call, id, s);
      } else {
        OtherQueueRefines(At(db.queues, q), q, call, id, s, taken);
      }
    }
    forall n ensures OnLetters(Letters(db'.dead, n), n, id, MovedTo(id, s, taken, call)) {
      assert OnLetters(Letters(db.dead, n), n, id, s);
      if n == call.queue.name {
        LettersRefine(qd, Letters(db.dead, n), call, id, s, taken);
      } else {
        OtherLettersRefine(Letters(db.dead, n), n, call, id, s, taken);
      }
    }
  }

  lemma MoveOn(st: Statuses, db: Db, call: Call, id: Id)
    requires AgreeOn(db, id, StatusOf(st, id))
    ensures StatusOf(Move(st, db, call), id) == MovedOn(db, call, id, StatusOf(st, id))
  {
    var qd := At(db.queues, call.queue);
    assert OnQueue(qd, call.queue, id, StatusOf(st, id));
    if id !in st {
      assert id !in qd.list;
    }
  }

  lemma CommandKeepsDistinct(db: Db, st: Statuses, call: Call)
    requires Agree(db, st) && Enabled(st, call)
    ensures Distinct(QueueAfter(At(db.queues, call.queue), call).list)
  {
    var qd := At(db.queues, call.queue);
    match call.command
    case Requeue(ids) =>
      var back := RequeuedIs(qd, call.worker, ids);
      forall id | id in qd.list ensures id !in back {
        assert AgreeOn(db, id, StatusOf(st, id));
        assert OnQueue(qd, call.queue, id, StatusOf(st, id));
      }
      DistinctAppend(qd.list, back);
    case Fetch(prefetch) => DistinctSplit(qd.list, Taken(qd, prefetch, call.maxUnpack));
    case Enqueue(id, _) =>
      assert AgreeOn(db, id, StatusOf(st, id));
      assert OnQueue(qd, call.queue, id, StatusOf(st, id));
      DistinctAppend(qd.list, [id]);
    case _ =>
  }

  lemma CommandRefines(db: Db, st: Statuses, call: Call)
    requires Agree(db, st) && Enabled(st, call)
    ensures Agree(Execute(db, call), Move(st, db, call))
  {
    CommandKeepsDistinct(db, st, call);
    forall id ensures AgreeOn(Execute(db, call), id, StatusOf(Move(st, db, call), id)) {
      assert AgreeOn(db, id, StatusOf(st, id));
      MoveOn(st, db, call, id);
      CommandRefinesOn(db, call, id, StatusOf(st, id));
    }
  }

  /** One call of the script refines one step of the status machine. */
  lemma StepRefines(s: Sys, call: Call, s': Sys)
    requires Agree(s.db, s.st) && Step(s, call, s')
    ensures Agree(s'.db, s'.st)
  {
    var mid :| StepVia(s, call, mid, s');
    BeatAgrees(s, call);
    MaintenanceRefines(Beat(s.db, call), s.st, call, mid);
    CommandRefines(mid, Tidy(s.st, Beat(s.db, call), call), call);
  }

  lemma BeatAgrees(s: Sys, call: Call)
    requires Agree(s.db, s.st)
    ensures Agree(Beat(s.db, call), s.st)
  {
    forall id ensures AgreeOn(Beat(s.db, call), id, StatusOf(s.st, id)) {
      assert AgreeOn(s.db, id, StatusOf(s.st, id));
    }
  }

  // ----- runs

  const EMPTY := Sys(Db(map[], map[], map[]), map[])

  /** Any interleaving of script calls, by any workers, on any queues.  A
      worker that stops simply makes no more calls. */
  ghost predicate Run(states: seq<Sys>, calls: seq<Call>) {
    && |states| == |calls| + 1
    && states[0] == EMPTY
    && forall i :: 0 <= i < |calls| ==> StepAt(states, calls, i)
  }

  ghost predicate StepAt(states: seq<Sys>, calls: seq<Call>, i: nat)
    requires |states| == |calls| + 1 && i < |calls|
  {
    Step(states[i], calls[i], states[i + 1])
  }

  lemma EmptyAgrees()
    ensures Agree(EMPTY.db, EMPTY.st)
  {
  }

  lemma {:induction false} RunAgrees(states: seq<Sys>, calls: seq<Call>, i: nat)
    requires Run(states, calls) && i < |states|
    ensures Agree(states[i].db, states[i].st)
  {
    hide Agree, Step;
    if i == 0 {
      EmptyAgrees();
    } else {
      RunAgrees(states, calls, i - 1);
      assert StepAt(states, calls, i - 1);
      StepRefines(states[i - 1], calls[i - 1], states[i]);
    }
  }

  // ----- what the refinement gives

  /** The lease invariant of one queue. */
  ghost predicate Sound(qd: QueueDb) {
    && Distinct(qd.list)
    && (forall id :: id in qd.list ==> id in qd.msgs && forall w :: id !in Leases(qd.acks, w))
    && (forall id :: id in qd.msgs && id !in qd.list ==> exists w :: id in Leases(qd.acks, w))
    && (forall id, w, v :: id in Leases(qd.acks, w) && id in Leases(qd.acks, v) ==> w == v)
  }

  lemma AgreeIsSound(db: Db, st: Statuses, q: Queue)
    requires Agree(db, st)
    ensures Sound(At(db.queues, q))
  {
    var qd := At(db.queues, q);
    forall id ensures id in qd.list ==> id in qd.msgs && forall w :: id !in Leases(qd.acks, w) {
      assert AgreeOn(db, id, StatusOf(st, id));
    }
    forall id | id in qd.msgs && id !in qd.list ensures exists w :: id in Leases(qd.acks, w) {
      var s := StatusOf(st, id);
      assert AgreeOn(db, id, s);
      assert id in Leases(qd.acks, s.worker);
    }
    forall id, w, v | id in Leases(qd.acks, w) && id in Leases(qd.acks, v) ensures w == v {
      assert AgreeOn(db, id, StatusOf(st, id));
    }
  }

  /** Over every run: listed ids are distinct and have payloads, and a stored
      payload is on the list or leased by exactly one worker, never both. */
  lemma LeaseInvariant(states: seq<Sys>, calls: seq<Call>, i: nat, q: Queue)
    requires Run(states, calls) && i < |states|
    ensures Sound(At(states[i].db.queues, q))
  {
    RunAgrees(states, calls, i);
    AgreeIsSound(states[i].db, states[i].st, q);
  }

  /** Over every run, the dead-letter set and its payloads hold the same ids,
      which no queue holds any more. */
  lemma DeadLettersAgree(states: seq<Sys>, calls: seq<Call>, i: nat, name: string)
    requires Run(states, calls) && i < |states|
    ensures var letters := Letters(states[i].db.dead, name);
            && letters.scores.Keys == letters.msgs.Keys
            && forall id, q :: id in letters.msgs ==>
                 id !in At(states[i].db.queues, q).list && id !in At(states[i].db.queues, q).msgs
  {
    RunAgrees(states, calls, i);
    var db, letters := states[i].db, Letters(states[i].db.dead, name);
    forall id ensures id in letters.scores <==> id in letters.msgs {
      assert AgreeOn(db, id, StatusOf(states[i].st, id));
      assert OnLetters(letters, name, id, StatusOf(states[i].st, id));
    }
    forall id, q | id in letters.msgs ensures id !in At(db.queues, q).list && id !in At(db.queues, q).msgs {
      assert AgreeOn(db, id, StatusOf(states[i].st, id));
      assert OnLetters(letters, name, id, StatusOf(states[i].st, id));
      assert OnQueue(At(db.queues, q), q, id, StatusOf(states[i].st, id));
    }
  }

  /** No fetch of any run answers with a missing payload. */
  lemma FetchFindsPayloads(states: seq<Sys>, calls: seq<Call>, i: nat, mid: Db)
    requires Run(states, calls) && i < |calls| && calls[i].command.Fetch?
    requires StepVia(states[i], calls[i], mid, states[i + 1])
    ensures forall k :: 0 <= k < |Answer(mid, calls[i]).found| ==> Answer(mid, calls[i]).found[k].Some?
  {
    var s, call := states[i], calls[i];
    RunAgrees(states, calls, i);
    BeatAgrees(s, call);
    MaintenanceRefines(Beat(s.db, call), s.st, call, mid);
    AgreeIsSound(mid, Tidy(s.st, Beat(s.db, call), call), call.queue);
  }

  /** A finished message stays finished, only a dead letter can still change,
      and a live message never changes queues. */
  ghost predicate Allowed(s: Status, s': Status) {
    && (s.Finished() ==> s'.Finished())
    && (s.Acked? || s.Expired? || s.Purged? ==> s' == s)
    && (s.Live() && s'.Live() ==> s'.queue == s.queue)
  }

  /** What one call does to one id, in two moves of the status machine. */
  lemma StepOn(s: Sys, call: Call, mid: Db, s': Sys, id: Id) returns (t: Status)
    requires Agree(s.db, s.st) && StepVia(s, call, mid, s')
    ensures t == TidiedOn(StatusOf(s.st, id), Beat(s.db, call), call)
    ensures AgreeOn(mid, id, t)
    ensures StatusOf(s'.st, id) == MovedOn(mid, call, id, t)
  {
    var tidy := Tidy(s.st, Beat(s.db, call), call);
    BeatAgrees(s, call);
    MaintenanceRefines(Beat(s.db, call), s.st, call, mid);
    t := StatusOf(tidy, id);
    TidyOn(s.st, Beat(s.db, call), call, id);
    assert AgreeOn(mid, id, t);
    MoveOn(tidy, mid, call, id);
  }

  lemma MovesAreAllowed(s: Status, db: Db, mid: Db, call: Call, id: Id)
    requires AgreeOn(mid, id, TidiedOn(s, db, call))
    requires call.command.Enqueue? ==> id != call.command.id
    ensures Allowed(s, MovedOn(mid, call, id, TidiedOn(s, db, call)))
  {
    assert OnQueue(At(mid.queues, call.queue), call.queue, id, TidiedOn(s, db, call));
  }

  lemma StepIsAllowed(s: Sys, call: Call, s': Sys, id: Id)
    requires Agree(s.db, s.st) && Step(s, call, s') && id in s.st
    ensures Allowed(StatusOf(s.st, id), StatusOf(s'.st, id))
  {
    var mid :| StepVia(s, call, mid, s');
    var t := StepOn(s, call, mid, s', id);
    MovesAreAllowed(StatusOf(s.st, id), Beat(s.db, call), mid, call, id);
  }

  lemma RunStep(states: seq<Sys>, calls: seq<Call>, i: nat, id: Id)
    requires Run(states, calls) && i < |calls| && id in states[i].st
    ensures Allowed(StatusOf(states[i].st, id), StatusOf(states[i + 1].st, id))
  {
    RunAgrees(states, calls, i);
    assert StepAt(states, calls, i);
    StepIsAllowed(states[i], calls[i], states[i + 1], id);
  }

  lemma {:induction false} FinishedStays(states: seq<Sys>, calls: seq<Call>, i: nat, j: nat, id: Id)
    requires Run(states, calls) && i <= j < |states|
    requires StatusOf(states[i].st, id).Finished()
    ensures StatusOf(states[j].st, id).Finished()
    decreases j
  {
    if i < j {
      FinishedStays(states, calls, i, j - 1, id);
      RunStep(states, calls, j - 1, id);
    }
  }

  /** An acked, dead-lettered, expired or purged id is never listed or stored
      on a queue again, and so never processed again. */
  lemma FinishedNeverReturns(states: seq<Sys>, calls: seq<Call>, i: nat, j: nat, id: Id, q: Queue)
    requires Run(states, calls) && i <= j < |states|
    requires StatusOf(states[i].st, id).Finished()
    ensures id !in At(states[j].db.queues, q).list && id !in At(states[j].db.queues, q).msgs
  {
    FinishedStays(states, calls, i, j, id);
    RunAgrees(states, calls, j);
    assert AgreeOn(states[j].db, id, StatusOf(states[j].st, id));
  }

  /** A worker that no longer holds the lease cannot ack, nack or requeue. */
  lemma LateCallsChangeNothing(db: Db, st: Statuses, call: Call, ids: set<Id>)
    requires Agree(db, st)
    requires match call.command
             case Ack(id) => ids == {id}
             case Nack(id) => ids == {id}
             case Requeue(list) => ids == Elements(list)
             case _ => false
    requires forall id :: id in ids ==> StatusOf(st, id) != Leased(call.queue, call.worker)
    ensures forall n :: Letters(Execute(db, call).dead, n) == Letters(db.dead, n)
    ensures forall q :: At(Execute(db, call).queues, q).list == At(db.queues, q).list
    ensures forall q :: At(Execute(db, call).queues, q).msgs == At(db.queues, q).msgs
    ensures forall q, w :: w != call.worker ==>
              Leases(At(Execute(db, call).queues, q).acks, w) == Leases(At(db.queues, q).acks, w)
  {
    var qd := At(db.queues, call.queue);
    forall id | id in ids && id in Leases(qd.acks, call.worker) ensures id !in qd.msgs {
      assert AgreeOn(db, id, StatusOf(st, id));
    }
    if call.command.Requeue? {
      var back := RequeuedIs(qd, call.worker, call.command.ids);
      assert forall id :: id in call.command.ids ==> id in ids;
      assert forall id :: id !in back;
      SomethingInside(back);
    }
  }
}
