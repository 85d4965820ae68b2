/** The Redis consumer: one worker's view of what it holds on one queue. */
module Consumers {
  import opened Keyspace
  import opened Sequences
  import opened DispatchSpec
  import opened Lifecycle
  import opened Dispatch
  import opened Effects

  datatype Next = Got(message: Message) | Nothing | Undecodable | ConnectionClosed

  /** What a broker puts in each of its calls. */
  datatype Config = Config(worker: Worker, heartbeatTimeout: int, deadTtl: int, maxUnpack: nat)

  function Request(c: Config, queue: Queue, command: Command, now: nat, maintain: bool): Call {
    Call(command, now, queue, c.worker, c.heartbeatTimeout, c.deadTtl, maintain, c.maxUnpack)
  }

  /** Payloads are stored under the id that they name, and no two payloads on
      the queue are copies of one message. */
  ghost predicate Labelled(msgs: map<Id, Data>) {
    && (forall id :: id in msgs ==> msgs[id].Encoded? && msgs[id].message.redisId == id)
    && (forall id, other :: id in msgs && other in msgs && id != other && msgs[id].Encoded? && msgs[other].Encoded?
          ==> msgs[id].message.messageId != msgs[other].message.messageId)
  }

  /** The worker's lease set on the queue is what the consumer has cached, under
      `ids`, and what it has handed out, keyed by message id in `held`. */
  ghost predicate InStep(ids: seq<Id>, held: map<nat, Id>, qd: QueueDb, w: Worker) {
    && Distinct(ids)
    && (forall id :: id in ids ==> id in qd.msgs)
    && (forall m :: m in held ==> held[m] !in ids && held[m] in qd.msgs
                                  && qd.msgs[held[m]] == Encoded(Message(m, held[m])))
    && (forall id :: id in Leases(qd.acks, w) <==> id in ids || id in held.Values)
  }

  function Decoded(data: Option<Data>): Next {
    if data.Some? && data.value.Encoded? then Got(data.value.message) else Undecodable
  }

  ghost predicate IdsOf(messages: seq<Message>, ids: seq<Id>) {
    |ids| == |messages| && forall i :: 0 <= i < |messages| ==> ids[i] == messages[i].redisId
  }

  function RedisIds(messages: seq<Message>): seq<Id> {
    seq(|messages|, i requires 0 <= i < |messages| => messages[i].redisId)
  }

  function HandedOut(r: Next): set<nat> {
    if r.Got? then {r.message.messageId} else {}
  }

  ghost predicate NewlyHeld(r: Next, queued: set<nat>, held: map<nat, Id>) {
    && !r.Undecodable?
    && (r.Got? ==> && r.message.messageId !in queued
                   && r.message.messageId in held && held[r.message.messageId] == r.message.redisId)
  }

  /** No more is outstanding than may be prefetched, and no cached payload is
      missing. */
  ghost predicate WithinPrefetch(
    cache: seq<Option<Data>>, queued: set<nat>, ids: seq<Id>, held: map<nat, Id>, prefetch: int)
  {
    && held.Keys == queued
    && |ids| == |cache|
    && None !in cache
    && (|queued| + |cache| == 0 || |queued| + |cache| <= prefetch)
  }

  /** One step answered with these payloads. */
  ghost predicate Answered(s: Sys, call: Call, s': Sys, found: seq<Option<Data>>) {
    exists mid :: StepVia(s, call, mid, s') && Answer(mid, call) == Messages(found)
  }

  /** One step answered with payloads, of which the first is `r`, decoded, and
      the others are cached. */
  ghost predicate Refilled(s: Sys, call: Call, s': Sys, r: Next, cache: seq<Option<Data>>) {
    if r.Nothing? then cache == [] && Answered(s, call, s', [])
    else exists data :: r == Decoded(data) && Answered(s, call, s', [data] + cache)
  }

  lemma PopRefills(s: Sys, call: Call, s': Sys, found: seq<Option<Data>>)
    requires Answered(s, call, s', found) && found != []
    ensures Refilled(s, call, s', Decoded(found[0]), found[1..])
  {
    assert found == [found[0]] + found[1..];
  }

  class RedisConsumer {
    const script: Script
    const config: Config
    const queue: Queue
    const prefetch: int

    var cache: seq<Option<Data>>
    var queued: set<nat>
    var misses: nat

    /** The ids of the cached payloads, and those of the messages handed out. */
    ghost var ids: seq<Id>
    ghost var held: map<nat, Id>

    function Outstanding(): nat
      reads `cache, `queued
    {
      |queued| + |cache|
    }

    ghost predicate Valid()
      reads `cache, `queued, `ids, `held
    {
      0 < config.maxUnpack && WithinPrefetch(cache, queued, ids, held, prefetch)
    }

    ghost predicate Exact()
      reads `cache, `ids, `held, script`queues
    {
      var qd := At(script.queues, queue);
      && InStep(ids, held, qd, config.worker)
      && cache == Payloads(qd.msgs, ids)
    }

    ghost function Msgs(): map<Id, Data>
      reads script`queues
    {
      At(script.queues, queue).msgs
    }

    constructor (script: Script, config: Config, queue: Queue, prefetch: int)
      requires 0 < config.maxUnpack
      ensures Valid() && Outstanding() == 0
      ensures this.script == script && this.config == config && this.queue == queue && this.prefetch == prefetch
      ensures Leases(At(script.queues, queue).acks, config.worker) == {} ==> Exact()
    {
      this.script, this.config, this.queue, this.prefetch := script, config, queue, prefetch;
      cache, queued, misses := [], {}, 0;
      ids, held := [], map[];
    }

    /** In step, the consumer counts exactly what the server has leased to it. */
    lemma OutstandingIsLeases()
      requires Valid() && Exact()
      ensures Outstanding() == |Leases(At(script.queues, queue).acks, config.worker)|
    {
      CountIsLeases(ids, held, At(script.queues, queue), config.worker);
    }

    /** The call that fetches into the free slots. */
    ghost function FetchRequest(outstanding: nat, now: nat, maintain: bool): Call {
      Request(config, queue, Fetch(prefetch - outstanding), now, maintain)
    }

    lemma NoneMissing()
      requires Valid() && cache != []
      ensures cache[0].Some?
    {
      assert cache[0] in cache;
    }

    /** One call of the script.  Without a reply the call may have been made. */
    method Send(command: Command, now: nat, maintain: bool) returns (reply: Option<Reply>)
      requires script.Valid() && 0 < config.maxUnpack && !command.Enqueue?
      modifies script
      ensures script.Valid()
      ensures Request(config, queue, command, now, maintain)
              == Call(command, now, queue, config.worker,
                      config.heartbeatTimeout, config.deadTtl, maintain, config.maxUnpack)
      ensures var call := Request(config, queue, command, now, maintain);
              reply.Some? ==> exists mid :: StepVia(old(script.System()), call, mid, script.System())
                                            && reply.value == Answer(mid, call)
      ensures var call := Request(config, queue, command, now, maintain);
              reply.None? ==> script.System() == old(script.System())
                              || Step(old(script.System()), call, script.System())
    {
      var reaches, answers := *, *;
      if !reaches {
        return None;
      }
      var r := script.Dispatch(Request(config, queue, command, now, maintain));
      reply := if answers then Some(r) else None;
    }

    /** `do_fetch`: the payloads of a batch of messages, all of them there. */
    method FetchBatch(now: nat, maintain: bool) returns (ok: bool)
      requires Valid() && script.Valid() && cache == [] && Outstanding() < prefetch
      modifies script, this`cache, this`ids
      ensures Valid() && script.Valid()
      ensures !ok ==> cache == []
      ensures ok ==>
                Answered(old(script.System()), FetchRequest(old(Outstanding()), now, maintain), script.System(), cache)
      ensures ok ==>
                Outstanding() == prefetch || |cache| == config.maxUnpack || At(script.queues, queue).list == []
      ensures ok && old(Exact() && Labelled(Msgs())) && 0 < config.heartbeatTimeout ==> Exact() && Labelled(Msgs())
    {
      hide InStep, Labelled, Payloads, StepVia, Step, Agree, Answer, At, Leases;
      ghost var s := script.System();
      ghost var call := Request(config, queue, Fetch(prefetch - Outstanding()), now, maintain);
      var reply := Send(Fetch(prefetch - Outstanding()), now, maintain);
      ok := reply.Some?;
      if ok {
        ghost var mid :| StepVia(s, call, mid, script.System()) && reply.value == Answer(mid, call);
        ids := FetchGives(s, call, mid, script.System());
        ViaExecutes(s, call, mid, script.System());
        FetchFills(call, mid, script.System());
        cache := reply.value.found;
        if InStep([], held, At(s.db.queues, queue), config.worker) && 0 < config.heartbeatTimeout {
          FetchKeeps(s, call, mid, script.System(), ids, held);
        }
      }
    }

    /** Decodes the first cached payload and counts it as handed out. */
    method TakeCached() returns (r: Next)
      requires Valid() && cache != []
      modifies this
      ensures Valid() && cache == old(cache[1..])
      ensures r == Decoded(old(cache[0]))
      ensures queued == old(queued) + HandedOut(r)
      ensures old(Exact()) && Labelled(Msgs()) ==> Exact() && NewlyHeld(r, old(queued), held)
    {
      hide InStep, Labelled, Payloads, At, NewlyHeld, WithinPrefetch;
      PopStaysWithin(cache, queued, ids, held, prefetch);
      var data, rest := cache[0].value, cache[1..];
      ghost var id := ids[0];
      if Exact() && Labelled(Msgs()) {
        FirstCached(cache, ids, held, At(script.queues, queue), config.worker);
      }
      misses := 0;
      if data.Malformed? {
        cache, ids := rest, ids[1..];
        r := Undecodable;
      } else {
        var m := data.message.messageId;
        cache, ids, queued, held := rest, ids[1..], queued + {m}, held[m := id];
        r := Got(data.message);
      }
    }

    /** `__next__`.  The branch for a missing payload is never taken. */
    method Next(now: nat, maintain: bool) returns (r: Next)
      requires Valid() && script.Valid()
      modifies this, script
      ensures Valid() && script.Valid()
      ensures queued == old(queued) + HandedOut(r)
      ensures old(cache) != [] ==>
                script.System() == old(script.System()) && r == Decoded(old(cache[0])) && cache == old(cache[1..])
      ensures old(cache) != [] ==> old(cache[0]).Some? && (r.Got? <==> old(cache[0]).value.Encoded?)
      ensures old(cache) != [] && r.Got? ==> r.message == old(cache[0]).value.message
      ensures old(cache) == [] && prefetch <= old(Outstanding()) ==>
                script.System() == old(script.System()) && r.Nothing? && cache == []
      ensures old(cache) == [] && old(Outstanding()) < prefetch && !r.ConnectionClosed? ==>
                Refilled(old(script.System()), FetchRequest(old(Outstanding()), now, maintain),
                         script.System(), r, cache)
      ensures old(Exact() && Labelled(Msgs())) && 0 < config.heartbeatTimeout && !r.ConnectionClosed?
              ==> Exact() && NewlyHeld(r, old(queued), held)
    {
      hide InStep, Labelled, Payloads, At, Agree, Exact, WithinPrefetch, Answered, FetchRequest;
      ghost var exact := Exact() && Labelled(Msgs()) && 0 < config.heartbeatTimeout;
      ghost var fetched := false;
      while true
        invariant Valid() && script.Valid() && queued == old(queued)
        invariant !fetched ==> cache == old(cache) && script.System() == old(script.System())
        invariant fetched ==> old(cache) == [] && cache != [] && old(Outstanding()) < prefetch
        invariant fetched ==>
          Answered(old(script.System()), FetchRequest(old(Outstanding()), now, maintain), script.System(), cache)
        invariant exact ==> Exact() && Labelled(Msgs())
        decreases cache == []
      {
        if cache != [] {
          NoneMissing();
          if cache[0].None? {
            assert false;
          }
          if fetched {
            PopRefills(old(script.System()), FetchRequest(old(Outstanding()), now, maintain), script.System(), cache);
          }
          r := TakeCached();
          return;
        }
        var empty := true;
        if Outstanding() < prefetch {
          var ok := FetchBatch(now, maintain);
          if !ok {
            return ConnectionClosed;
          }
          empty, fetched := cache == [], true;
        }
        if empty {
          misses := misses + 1;
          return Nothing;
        }
      }
    }

    /** `ack` and `nack`: whatever comes of the call, the consumer no longer
        counts the message. */
    method Settle(message: Message, failed: bool, now: nat, maintain: bool) returns (ok: bool)
      requires Valid() && script.Valid()
      modifies this`queued, this`held, script
      ensures Valid() && script.Valid()
      ensures queued == old(queued) - {message.messageId}
      ensures var command := if failed then Nack(message.redisId) else Ack(message.redisId);
              ok ==> Step(old(script.System()), Request(config, queue, command, now, maintain), script.System())
      ensures old(Exact()) && 0 < config.heartbeatTimeout && ok
              && message.messageId in old(held) && old(held)[message.messageId] == message.redisId
              ==> Exact() && message.redisId !in Leases(At(script.queues, queue).acks, config.worker)
    {
      hide InStep, Labelled, Payloads, StepVia, Agree, Answer, At, Leases;
      ghost var s := script.System();
      ghost var exact := && Exact() && 0 < config.heartbeatTimeout
                         && message.messageId in held && held[message.messageId] == message.redisId;
      var command := if failed then Nack(message.redisId) else Ack(message.redisId);
      ghost var call := Request(config, queue, command, now, maintain);
      var reply := Send(command, now, maintain);
      ok := reply.Some?;
      if exact && ok {
        SettleKeepsStep(s, call, script.System(), ids, held, message);
      }
      queued := queued - {message.messageId};
      held := held - {message.messageId};
    }

    /** `requeue`: gives leases back without touching the consumer's counts. */
    method RequeueAll(messages: seq<Message>, now: nat, maintain: bool) returns (ok: bool)
      requires Valid() && script.Valid()
      modifies script
      ensures Valid() && script.Valid()
      ensures messages == [] ==> ok && script.System() == old(script.System())
      ensures messages != [] && ok ==>
                exists ids :: IdsOf(messages, ids)
                              && Step(old(script.System()), Request(config, queue, Requeue(ids), now, maintain),
                                      script.System())
      ensures messages != [] && ok ==>
                forall m :: m in messages ==> m.redisId !in Leases(At(script.queues, queue).acks, config.worker)
    {
      var list := RedisIds(messages);
      if messages == [] {
        return true;
      }
      ghost var s, call := script.System(), Request(config, queue, Requeue(list), now, maintain);
      var reply := Send(Requeue(list), now, maintain);
      ok := reply.Some?;
      if ok {
        assert IdsOf(messages, list);
        RequeuedAreGone(s, call, script.System(), list);
      }
    }
  }

  lemma PopStaysWithin(cache: seq<Option<Data>>, queued: set<nat>, ids: seq<Id>, held: map<nat, Id>, prefetch: int)
    requires WithinPrefetch(cache, queued, ids, held, prefetch) && cache != []
    ensures ids != [] && cache[0].Some? && held.Keys == queued
    ensures match cache[0].value
            case Encoded(m) =>
              WithinPrefetch(cache[1..], queued + {m.messageId}, ids[1..], held[m.messageId := ids[0]], prefetch)
            case Malformed => WithinPrefetch(cache[1..], queued, ids[1..], held, prefetch)
  {
    assert cache[0] in cache;
    if cache[0].value.Encoded? {
      var m := cache[0].value.message.messageId;
      assert queued + {m} == if m in queued then queued else queued + {m};
    }
  }

  // ----- why the consumer stays in step

  /** Maintenance by a call leaves the lease set of a worker that is not dead. */
  lemma MaintenanceKeeps(db: Db, call: Call, mid: Db, q: Queue, w: Worker, ids: seq<Id>, held: map<nat, Id>)
    requires Maintained(db, call, mid) && InStep(ids, held, At(db.queues, q), w)
    requires w !in DeadWorkers(db, call)
    ensures InStep(ids, held, At(mid.queues, q), w) && At(mid.queues, q).msgs == At(db.queues, q).msgs
  {
    if call.maintain {
      assert q != call.queue ==> At(mid.queues, q) == At(db.queues, q);
      assert Leases(At(mid.queues, q).acks, w) == Leases(At(db.queues, q).acks, w);
    }
  }

  lemma CallerLives(s: Sys, call: Call)
    requires 0 < call.heartbeatTimeout
    ensures call.worker !in DeadWorkers(Beat(s.db, call), call)
  {
  }

  lemma AgreeAtMid(s: Sys, call: Call, mid: Db, s': Sys)
    requires Agree(s.db, s.st) && StepVia(s, call, mid, s')
    ensures Agree(mid, Tidy(s.st, Beat(s.db, call), call))
  {
    BeatAgrees(s, call);
    MaintenanceRefines(Beat(s.db, call), s.st, call, mid);
  }

  /** The ids that a fetch takes off the list. */
  function Head(qd: QueueDb, call: Call): seq<Id>
    requires call.command.Fetch?
  {
    qd.list[..Taken(qd, call.command.prefetch, call.maxUnpack)]
  }

  /** A fetch answers with the payloads of the ids that it leased, and has one
      for each. */
  lemma FetchGives(s: Sys, call: Call, mid: Db, s': Sys) returns (ids: seq<Id>)
    requires Agree(s.db, s.st) && StepVia(s, call, mid, s') && call.command.Fetch? && 0 < call.command.prefetch
    ensures ids == Head(At(mid.queues, call.queue), call)
    ensures |ids| <= call.command.prefetch
    ensures Answer(mid, call) == Messages(Payloads(At(s'.db.queues, call.queue).msgs, ids))
    ensures forall i :: 0 <= i < |ids| ==> Answer(mid, call).found[i].Some?
  {
    var qd := At(mid.queues, call.queue);
    ids := Head(qd, call);
    AgreeAtMid(s, call, mid, s');
    AgreeIsSound(mid, Tidy(s.st, Beat(s.db, call), call), call.queue);
    assert forall i :: 0 <= i < |ids| ==> ids[i] in qd.list;
  }

  lemma FetchKeeps(s: Sys, call: Call, mid: Db, s': Sys, ids: seq<Id>, held: map<nat, Id>)
    requires Agree(s.db, s.st) && StepVia(s, call, mid, s') && call.command.Fetch? && 0 < call.command.prefetch
    requires 0 < call.heartbeatTimeout && InStep([], held, At(s.db.queues, call.queue), call.worker)
    requires ids == Head(At(mid.queues, call.queue), call)
    ensures InStep(ids, held, At(s'.db.queues, call.queue), call.worker)
    ensures At(s'.db.queues, call.queue).msgs == At(s.db.queues, call.queue).msgs
  {
    CallerLives(s, call);
    MaintenanceKeeps(Beat(s.db, call), call, mid, call.queue, call.worker, [], held);
    var qd := At(mid.queues, call.queue);
    AgreeAtMid(s, call, mid, s');
    AgreeIsSound(mid, Tidy(s.st, Beat(s.db, call), call), call.queue);
    FetchedKeeps(qd, call.worker, Taken(qd, call.command.prefetch, call.maxUnpack), held);
  }

  lemma FetchedKeeps(qd: QueueDb, w: Worker, n: nat, held: map<nat, Id>)
    requires Sound(qd) && n <= |qd.list| && InStep([], held, qd, w)
    ensures InStep(qd.list[..n], held, Fetched(qd, w, n), w)
  {
    DistinctSplit(qd.list, n);
  }

  /** Handing out the first cached message: distinct message ids make it new. */
  lemma PopKeeps(ids: seq<Id>, held: map<nat, Id>, qd: QueueDb, w: Worker, message: Message)
    requires InStep(ids, held, qd, w) && Labelled(qd.msgs) && ids != []
    requires qd.msgs[ids[0]] == Encoded(message)
    ensures message.messageId !in held && message.redisId == ids[0]
    ensures InStep(ids[1..], held[message.messageId := ids[0]], qd, w)
  {
    var held' := held[message.messageId := ids[0]];
    assert ids == [ids[0]] + ids[1..];
    forall id ensures id in held'.Values <==> id in held.Values || id == ids[0] {
      if id in held.Values {
        var m :| m in held && held[m] == id;
        assert m in held' && held'[m] == id;
      }
      assert message.messageId in held' && held'[message.messageId] == ids[0];
    }
  }

  lemma FirstCached(cache: seq<Option<Data>>, ids: seq<Id>, held: map<nat, Id>, qd: QueueDb, w: Worker)
    requires InStep(ids, held, qd, w) && Labelled(qd.msgs) && cache == Payloads(qd.msgs, ids) && cache != []
    ensures cache[0].Some? && cache[0].value.Encoded?
    ensures var m := cache[0].value.message;
            && InStep(ids[1..], held[m.messageId := ids[0]], qd, w)
            && cache[1..] == Payloads(qd.msgs, ids[1..])
            && NewlyHeld(Got(m), held.Keys, held[m.messageId := ids[0]])
  {
    PopKeeps(ids, held, qd, w, cache[0].value.message);
  }

  lemma SettledKeeps(qd: QueueDb, call: Call, ids: seq<Id>, held: map<nat, Id>, message: Message)
    requires InStep(ids, held, qd, call.worker)
    requires call.command == Ack(message.redisId) || call.command == Nack(message.redisId)
    requires message.messageId in held && held[message.messageId] == message.redisId
    ensures InStep(ids, held - {message.messageId}, QueueAfter(qd, call), call.worker)
    ensures message.redisId !in Leases(QueueAfter(qd, call).acks, call.worker)
    ensures Payloads(QueueAfter(qd, call).msgs, ids) == Payloads(qd.msgs, ids)
  {
    var held', id := held - {message.messageId}, message.redisId;
    assert id in held.Values && id in Leases(qd.acks, call.worker);
    forall m | m in held' ensures held'[m] != id {
      assert qd.msgs[held[m]] == Encoded(Message(m, held[m]));
      assert qd.msgs[id] == Encoded(Message(message.messageId, id));
    }
    forall other ensures other in held'.Values <==> other in held.Values && other != id {
      if other in held.Values && other != id {
        var m :| m in held && held[m] == other;
        assert m in held' && held'[m] == other;
      }
    }
  }

  lemma SettleKeepsStep(s: Sys, call: Call, s': Sys, ids: seq<Id>, held: map<nat, Id>, message: Message)
    requires Step(s, call, s') && 0 < call.heartbeatTimeout
    requires InStep(ids, held, At(s.db.queues, call.queue), call.worker)
    requires call.command == Ack(message.redisId) || call.command == Nack(message.redisId)
    requires message.messageId in held && held[message.messageId] == message.redisId
    ensures InStep(ids, held - {message.messageId}, At(s'.db.queues, call.queue), call.worker)
    ensures message.redisId !in Leases(At(s'.db.queues, call.queue).acks, call.worker)
    ensures Payloads(At(s'.db.queues, call.queue).msgs, ids) == Payloads(At(s.db.queues, call.queue).msgs, ids)
  {
    var mid :| StepVia(s, call, mid, s');
    CallerLives(s, call);
    MaintenanceKeeps(Beat(s.db, call), call, mid, call.queue, call.worker, ids, held);
    SettledKeeps(At(mid.queues, call.queue), call, ids, held, message);
  }

  lemma ViaExecutes(s: Sys, call: Call, mid: Db, s': Sys)
    requires StepVia(s, call, mid, s')
    ensures s'.db == Execute(mid, call)
  {
  }

  /** A fetch gets all that it asks for, unless the script's limit or the end of the
      list stops it. */
  lemma FetchFills(call: Call, mid: Db, s': Sys)
    requires s'.db == Execute(mid, call) && call.command.Fetch?
    requires 0 < call.command.prefetch && 0 < call.maxUnpack
    ensures var n := |Answer(mid, call).found|;
            n == call.command.prefetch || n == call.maxUnpack || At(s'.db.queues, call.queue).list == []
  {
    var found, ids, rest := FetchTakesHead(mid, call);
  }

  /** A requeue leaves the worker none of the leases that it names. */
  lemma RequeuedAreGone(s: Sys, call: Call, s': Sys, ids: seq<Id>)
    requires Step(s, call, s') && call.command == Requeue(ids)
    ensures forall id :: id in ids ==> id !in Leases(At(s'.db.queues, call.queue).acks, call.worker)
  {
    var mid :| StepVia(s, call, mid, s');
    var back := RequeueAppends(mid, call, ids);
  }

  // ----- the count

  lemma OneHeldLess(held: map<nat, Id>, m: nat)
    requires m in held && forall a, b :: a in held && b in held && held[a] == held[b] ==> a == b
    ensures held.Keys == (held - {m}).Keys + {m} && held.Values == (held - {m}).Values + {held[m]}
    ensures held[m] !in (held - {m}).Values
  {
    var rest := held - {m};
    forall id ensures id in held.Values <==> id in rest.Values || id == held[m] {
      if id in held.Values && id != held[m] {
        var a :| a in held && held[a] == id;
        assert a in rest && rest[a] == id;
      }
    }
  }

  lemma {:induction false} HeldCounts(held: map<nat, Id>)
    requires forall a, b :: a in held && b in held && held[a] == held[b] ==> a == b
    ensures |held.Values| == |held.Keys|
  {
    if m :| m in held {
      OneHeldLess(held, m);
      HeldCounts(held - {m});
    } else {
      assert held.Values == {};
    }
  }

  lemma HeldApart(ids: seq<Id>, held: map<nat, Id>, qd: QueueDb, w: Worker)
    requires InStep(ids, held, qd, w)
    ensures forall a, b :: a in held && b in held && held[a] == held[b] ==> a == b
    ensures Leases(qd.acks, w) == Elements(ids) + held.Values && Elements(ids) !! held.Values
  {
    forall a, b | a in held && b in held && held[a] == held[b] ensures a == b {
      assert qd.msgs[held[a]] == Encoded(Message(a, held[a]));
      assert qd.msgs[held[b]] == Encoded(Message(b, held[b]));
    }
  }

  /** In step, the consumer's count is the size of its lease set. */
  lemma CountIsLeases(ids: seq<Id>, held: map<nat, Id>, qd: QueueDb, w: Worker)
    requires InStep(ids, held, qd, w)
    ensures |held.Keys| + |ids| == |Leases(qd.acks, w)|
  {
    HeldApart(ids, held, qd, w);
    InStepDistinct(ids, held, qd, w);
    hide *;
    HeldCounts(held);
    DistinctSize(ids);
  }

  lemma InStepDistinct(ids: seq<Id>, held: map<nat, Id>, qd: QueueDb, w: Worker)
    requires InStep(ids, held, qd, w)
    ensures Distinct(ids)
  {
  }

  // ----- what other workers' calls do to it

  /** The leases of `w` on `q` are taken away: by maintenance, or made stale by
      a purge. */
  ghost predicate Revokes(db: Db, call: Call, q: Queue, w: Worker) {
    && call.queue == q && Leases(At(db.queues, q).acks, w) != {}
    && (call.command.Purge? || (call.maintain && w in DeadWorkers(db, call)))
  }

  lemma OthersLeases(qd: QueueDb, call: Call, w: Worker)
    requires call.worker != w
    ensures Leases(QueueAfter(qd, call).acks, w) == Leases(qd.acks, w)
  {
    if call.command.Requeue? {
      var back := RequeuedIs(qd, call.worker, call.command.ids);
    }
  }

  /** No other worker can drop or change the payload of a lease, but by a purge. */
  lemma OthersPayloads(qd: QueueDb, call: Call, w: Worker, id: Id)
    requires Sound(qd) && call.worker != w && id in Leases(qd.acks, w) && id in qd.msgs
    requires call.command.Enqueue? ==> call.command.id != id
    ensures if call.command.Purge? then id !in QueueAfter(qd, call).msgs
            else id in QueueAfter(qd, call).msgs && QueueAfter(qd, call).msgs[id] == qd.msgs[id]
  {
    if call.command.Requeue? {
      var back := RequeuedIs(qd, call.worker, call.command.ids);
    }
  }

  lemma OthersCommand(qd: QueueDb, call: Call, w: Worker, ids: seq<Id>, held: map<nat, Id>)
    requires Sound(qd) && call.worker != w && InStep(ids, held, qd, w)
    requires call.command.Enqueue? ==> call.command.id !in qd.msgs
    ensures InStep(ids, held, QueueAfter(qd, call), w) <==> !(call.command.Purge? && Leases(qd.acks, w) != {})
  {
    hide QueueAfter, Sound;
    OthersLeases(qd, call, w);
    forall id | id in Leases(qd.acks, w)
      ensures id in qd.msgs
      ensures if call.command.Purge? then id !in QueueAfter(qd, call).msgs
              else id in QueueAfter(qd, call).msgs && QueueAfter(qd, call).msgs[id] == qd.msgs[id]
    {
      OthersPayloads(qd, call, w, id);
    }
  }

  lemma OthersMaintenance(db: Db, call: Call, mid: Db, q: Queue, w: Worker, ids: seq<Id>, held: map<nat, Id>)
    requires Maintained(db, call, mid) && InStep(ids, held, At(db.queues, q), w) && call.queue == q
    requires call.maintain && w in DeadWorkers(db, call) && Leases(At(db.queues, q).acks, w) != {}
    ensures forall qd: QueueDb :: Leases(qd.acks, w) == Leases(At(mid.queues, q).acks, w) ==> !InStep(ids, held, qd, w)
  {
    assert Leases(At(mid.queues, q).acks, w) == {};
    var id :| id in Leases(At(db.queues, q).acks, w);
    assert id in ids || id in held.Values;
  }

  /** Another worker's call puts the consumer out of step exactly when it
      revokes its leases. */
  lemma OthersKeepInStep(s: Sys, call: Call, s': Sys, q: Queue, w: Worker, ids: seq<Id>, held: map<nat, Id>)
    requires Agree(s.db, s.st) && Step(s, call, s') && call.worker != w
    requires InStep(ids, held, At(s.db.queues, q), w)
    ensures InStep(ids, held, At(s'.db.queues, q), w) <==> !Revokes(Beat(s.db, call), call, q, w)
  {
    hide InStep, Leases, QueueAfter, Agree, Swept;
    var mid :| StepVia(s, call, mid, s');
    var db := Beat(s.db, call);
    if call.queue != q {
      assert At(mid.queues, q) == At(db.queues, q) by { OtherQueues(db, call, mid, q); }
    } else {
      OthersLeases(At(mid.queues, q), call, w);
      if call.maintain && w in DeadWorkers(db, call) && Leases(At(db.queues, q).acks, w) != {} {
        OthersMaintenance(db, call, mid, q, w, ids, held);
      } else {
        AgreeAtMid(s, call, mid, s');
        AgreeIsSound(mid, Tidy(s.st, db, call), q);
        SparedByMaintenance(db, call, mid, q, w, ids, held);
        NewAtMid(s, call, mid, s');
        OthersCommand(At(mid.queues, q), call, w, ids, held);
      }
    }
  }

  lemma OtherQueues(db: Db, call: Call, mid: Db, q: Queue)
    requires Maintained(db, call, mid) && q != call.queue
    ensures At(mid.queues, q) == At(db.queues, q)
  {
  }

  lemma SparedByMaintenance(db: Db, call: Call, mid: Db, q: Queue, w: Worker, ids: seq<Id>, held: map<nat, Id>)
    requires Maintained(db, call, mid) && InStep(ids, held, At(db.queues, q), w) && call.queue == q
    requires !(call.maintain && w in DeadWorkers(db, call) && Leases(At(db.queues, q).acks, w) != {})
    ensures InStep(ids, held, At(mid.queues, q), w)
    ensures Leases(At(mid.queues, q).acks, w) == Leases(At(db.queues, q).acks, w)
  {
  }

  lemma NewAtMid(s: Sys, call: Call, mid: Db, s': Sys)
    requires Agree(s.db, s.st) && StepVia(s, call, mid, s')
    ensures call.command.Enqueue? ==> call.command.id !in At(mid.queues, call.queue).msgs
  {
    if call.command.Enqueue? {
      var t := StepOn(s, call, mid, s', call.command.id);
      assert OnQueue(At(mid.queues, call.queue), call.queue, call.command.id, t);
    }
  }
}
