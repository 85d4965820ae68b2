/** What one call of the dispatch script does to the database: a heartbeat,
    then perhaps maintenance, then one command, as one atomic step. */
module DispatchSpec {
  import opened Keyspace
  import opened Sequences

  function Beat(db: Db, call: Call): Db {
    db.(beats := db.beats[call.worker := call.now])
  }

  // ----- maintenance

  function DeadWorkers(db: Db, call: Call): set<Worker> {
    set w | w in db.beats && db.beats[w] <= call.now - call.heartbeatTimeout
  }

  function Overdue(letters: DeadLetters, call: Call): set<Id> {
    set id | id in letters.scores && letters.scores[id] <= call.now - call.deadTtl
  }

  function Without(letters: DeadLetters, ids: set<Id>): DeadLetters {
    DeadLetters(letters.scores - ids, letters.msgs - ids)
  }

  /** `ids` lists, once each and in no particular order, the leases of dead
      workers whose payload is still stored. */
  ghost predicate Returned(qd: QueueDb, dead: set<Worker>, ids: seq<Id>) {
    && Distinct(ids)
    && forall id :: id in ids <==> id in qd.msgs && exists w :: w in dead && id in Leases(qd.acks, w)
  }

  /** The queue after maintenance: dead workers hold nothing on it any more. */
  ghost predicate QueueSwept(qd: QueueDb, dead: set<Worker>, qd': QueueDb) {
    && qd'.msgs == qd.msgs
    && (forall w :: Leases(qd'.acks, w) == if w in dead then {} else Leases(qd.acks, w))
    && qd.list <= qd'.list
    && Returned(qd, dead, qd'.list[|qd.list|..])
  }

  ghost predicate Swept(db: Db, call: Call, db': Db) {
    var dead := DeadWorkers(db, call);
    && QueueSwept(At(db.queues, call.queue), dead, At(db'.queues, call.queue))
    && (forall q :: q != call.queue ==> At(db'.queues, q) == At(db.queues, q))
    && (forall w :: w in db'.beats <==> w in db.beats && (w in dead ==> HasLeases(db'.queues, w)))
    && (forall w :: w in db'.beats ==> db'.beats[w] == db.beats[w])
    && Letters(db'.dead, call.queue.name)
       == Without(Letters(db.dead, call.queue.name), Overdue(Letters(db.dead, call.queue.name), call))
    && (forall n :: n != call.queue.name ==> Letters(db'.dead, n) == Letters(db.dead, n))
  }

  ghost predicate Maintained(db: Db, call: Call, db': Db) {
    if call.maintain then Swept(db, call, db') else db' == db
  }

  // ----- commands

  /** How many messages a fetch takes off the list. */
  function Taken(qd: QueueDb, prefetch: int, maxUnpack: nat): (n: nat)
    ensures n <= |qd.list| && (n > 0 ==> n <= prefetch && n <= maxUnpack)
  {
    var n := Min(Min(prefetch, maxUnpack), |qd.list|);
    if n < 0 then 0 else n
  }

  function Fetched(qd: QueueDb, w: Worker, n: nat): QueueDb
    requires n <= |qd.list|
  {
    QueueDb(qd.list[n..], qd.msgs, SetLeases(qd.acks, w, Leases(qd.acks, w) + Elements(qd.list[..n])))
  }

  function Payloads(msgs: map<Id, Data>, ids: seq<Id>): (r: seq<Option<Data>>)
    ensures |r| == |ids|
    ensures forall i :: 0 <= i < |ids| ==> r[i] == if ids[i] in msgs then Some(msgs[ids[i]]) else None
  {
    seq(|ids|, i requires 0 <= i < |ids| => if ids[i] in msgs then Some(msgs[ids[i]]) else None)
  }

  function RequeuedOne(qd: QueueDb, w: Worker, id: Id): QueueDb {
    if id !in Leases(qd.acks, w) then qd
    else
      QueueDb(if id in qd.msgs then qd.list + [id] else qd.list,
              qd.msgs,
              SetLeases(qd.acks, w, Leases(qd.acks, w) - {id}))
  }

  function Requeued(qd: QueueDb, w: Worker, ids: seq<Id>): QueueDb {
    if ids == [] then qd
    else RequeuedOne(Requeued(qd, w, ids[..|ids| - 1]), w, ids[|ids| - 1])
  }

  function Freed(qd: QueueDb, w: Worker, id: Id): QueueDb {
    QueueDb(qd.list, qd.msgs - {id}, SetLeases(qd.acks, w, Leases(qd.acks, w) - {id}))
  }

  function Buried(letters: DeadLetters, id: Id, now: nat, data: Data): DeadLetters {
    DeadLetters(letters.scores[id := now], letters.msgs[id := data])
  }

  function QueueSize(db: Db, w: Worker, name: string): nat {
    var q, dq := At(db.queues, Queue(name, false)), At(db.queues, Queue(name, true));
    |dq.msgs| + |Leases(dq.acks, w)| + |q.msgs| + |Leases(q.acks, w)|
  }

  function QueueAfter(qd: QueueDb, call: Call): QueueDb {
    var w := call.worker;
    match call.command
    case Enqueue(id, data) => QueueDb(qd.list + [id], qd.msgs[id := data], qd.acks)
    case Fetch(prefetch) => Fetched(qd, w, Taken(qd, prefetch, call.maxUnpack))
    case Requeue(ids) => Requeued(qd, w, ids)
    case Ack(id) => if id in Leases(qd.acks, w) then Freed(qd, w, id) else qd
    case Nack(id) => if id in Leases(qd.acks, w) then Freed(qd, w, id) else qd
    case Purge => QueueDb([], map[], SetLeases(qd.acks, w, {}))
    case QSize => qd
  }

  function LettersAfter(qd: QueueDb, letters: DeadLetters, call: Call): DeadLetters {
    match call.command
    case Nack(id) =>
      if id in Leases(qd.acks, call.worker) && id in qd.msgs
      then Buried(letters, id, call.now, qd.msgs[id]) else letters
    case Purge => DeadLetters(map[], map[])
    case _ => letters
  }

  function Execute(db: Db, call: Call): Db {
    var q, name := call.queue, call.queue.name;
    var qd := At(db.queues, q);
    Db(db.beats,
       Put(db.queues, q, QueueAfter(qd, call)),
       PutLetters(db.dead, name, LettersAfter(qd, Letters(db.dead, name), call)))
  }

  function Answer(db: Db, call: Call): Reply {
    var qd := At(db.queues, call.queue);
    match call.command
    case Fetch(prefetch) =>
      Messages(Payloads(qd.msgs, qd.list[..Taken(qd, prefetch, call.maxUnpack)]))
    case QSize => Size(QueueSize(db, call.worker, call.queue.name))
    case _ => NoReply
  }
}
