/** The data that the dispatch script keeps in Redis.  Keys are structured: a
    queue is its canonical name plus the delay flag that the ".DQ" suffix
    encodes, so a queue and its delay queue share one dead-letter queue. */
module Keyspace {

  datatype Id = Id(uuid: nat)

  datatype Worker = Worker(uuid: nat)

  datatype Queue = Queue(name: string, delayed: bool)

  /** What the broker reads out of a stored payload: the logical message id,
      which copies share, and the id that this one copy was stored under. */
  datatype Message = Message(messageId: nat, redisId: Id)

  datatype Data = Encoded(message: Message) | Malformed

  datatype Option<+T> = None | Some(value: T)

  /** `$queue`, `$queue.msgs` and `__acks__.$worker.$queue`. */
  datatype QueueDb = QueueDb(list: seq<Id>, msgs: map<Id, Data>, acks: map<Worker, set<Id>>)

  /** `$queue.XQ` and `$queue.XQ.msgs`. */
  datatype DeadLetters = DeadLetters(scores: map<Id, nat>, msgs: map<Id, Data>)

  datatype Db = Db(beats: map<Worker, nat>, queues: map<Queue, QueueDb>, dead: map<string, DeadLetters>)

  // An absent Redis key reads as an empty collection.

  function At(queues: map<Queue, QueueDb>, q: Queue): QueueDb {
    if q in queues then queues[q] else QueueDb([], map[], map[])
  }

  function Put(queues: map<Queue, QueueDb>, q: Queue, qd: QueueDb): (r: map<Queue, QueueDb>)
    ensures forall p :: At(r, p) == if p == q then qd else At(queues, p)
  {
    if qd == At(queues, q) then queues else queues[q := qd]
  }

  function Letters(dead: map<string, DeadLetters>, name: string): DeadLetters {
    if name in dead then dead[name] else DeadLetters(map[], map[])
  }

  function PutLetters(dead: map<string, DeadLetters>, name: string, letters: DeadLetters): (r: map<string, DeadLetters>)
    ensures forall n :: Letters(r, n) == if n == name then letters else Letters(dead, n)
  {
    if letters == Letters(dead, name) then dead else dead[name := letters]
  }

  function Leases(acks: map<Worker, set<Id>>, w: Worker): set<Id> {
    if w in acks then acks[w] else {}
  }

  function SetLeases(acks: map<Worker, set<Id>>, w: Worker, ids: set<Id>): (r: map<Worker, set<Id>>)
    ensures forall v :: Leases(r, v) == if v == w then ids else Leases(acks, v)
  {
    if ids == Leases(acks, w) then acks else acks[w := ids]
  }

  /** Redis drops empty sets, so a worker's ack keys are its nonempty lease sets. */
  predicate HasLeases(queues: map<Queue, QueueDb>, w: Worker) {
    exists q :: q in queues && Leases(At(queues, q).acks, w) != {}
  }

  datatype Command =
    | Enqueue(id: Id, data: Data)
    | Fetch(prefetch: int)
    | Requeue(ids: seq<Id>)
    | Ack(id: Id)
    | Nack(id: Id)
    | Purge
    | QSize

  datatype Call = Call(
    command: Command, now: nat, queue: Queue, worker: Worker,
    heartbeatTimeout: int, deadTtl: int, maintain: bool, maxUnpack: nat)

  datatype Reply = NoReply | Messages(found: seq<Option<Data>>) | Size(size: nat)
}
