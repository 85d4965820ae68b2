/** The dispatch script: loops over Redis collections, proved to perform one
    step of the specification and so to keep the lease invariant. */
module Dispatch {
  import opened Keyspace
  import opened Sequences
  import opened DispatchSpec
  import opened Effects
  import opened Lifecycle

  /** The closure that `iter_chunks` returns. */
  class ChunkIterator {
    const table: seq<Id>
    const size: nat
    var i: nat

    ghost predicate Valid()
      reads this
    {
      0 < size && i <= |table|
    }

    constructor (table: seq<Id>, size: nat)
      requires 0 < size
      ensures Valid() && this.table == table && this.size == size && i == 0
    {
      this.table, this.size, i := table, size, 0;
    }

    /** Yields consecutive pieces of the table, none empty or longer than
        `size`, until the whole table has been yielded. */
    method Next() returns (chunk: Option<seq<Id>>)
      requires Valid()
      modifies this
      ensures Valid()
      ensures chunk.None? <==> old(i) == |table|
      ensures chunk.None? ==> i == old(i)
      ensures chunk.Some? ==> i == Min(old(i) + size, |table|) && chunk.value == table[old(i)..i] != []
    {
      if i < |table| {
        var piece := [];
        var last := Min(i + size, |table|);
        for j := i to last
          invariant piece == table[i..j]
        {
          piece := piece + [table[j]];
        }
        i := last;
        return Some(piece);
      }
      return None;
    }
  }

  /** Redis answers with the members of a collection in some order. */
  method Listing<T(==,!new)>(ids: set<T>) returns (list: seq<T>)
    ensures Distinct(list) && Elements(list) == ids
  {
    var todo := ids;
    list := [];
    while todo != {}
      invariant Distinct(list) && todo <= ids && Elements(list) == ids - todo
    {
      var id :| id in todo;
      todo := todo - {id};
      list := list + [id];
    }
  }

  class Script {
    var beats: map<Worker, nat>
    var queues: map<Queue, QueueDb>
    var dead: map<string, DeadLetters>

    /** The history of every id ever enqueued. */
    ghost var st: Statuses

    ghost function Contents(): Db
      reads this
    {
      Db(beats, queues, dead)
    }

    ghost function System(): Sys
      reads this
    {
      Sys(Contents(), st)
    }

    ghost predicate Valid()
      reads this
    {
      Agree(Contents(), st)
    }

    constructor ()
      ensures Valid() && System() == EMPTY
    {
      beats, queues, dead, st := map[], map[], map[], map[];
    }

    /** Gives a dead worker's leases on one queue back to the list. */
    method ReturnLeases(q: Queue, w: Worker)
      modifies this`queues
      ensures forall p :: p != q ==> At(queues, p) == old(At(queues, p))
      ensures GaveBack(old(At(queues, q)), w, At(queues, q))
    {
      var qd := At(queues, q);
      var ids := Leases(qd.acks, w);
      if ids != {} {
        var list, back, todo := qd.list, [], ids;
        while todo != {}
          invariant todo <= ids && list == qd.list + back && Distinct(back)
          invariant forall id :: id in back <==> id in ids && id !in todo && id in qd.msgs
        {
          var id :| id in todo;
          todo := todo - {id};
          if id in qd.msgs {
            list, back := list + [id], back + [id];
          }
        }
        queues := Put(queues, q, QueueDb(list, qd.msgs, SetLeases(qd.acks, w, {})));
      }
    }

    method ExpireLetters(call: Call)
      requires 0 < call.maxUnpack
      modifies this`dead
      ensures Letters(dead, call.queue.name)
              == old(Without(Letters(dead, call.queue.name), Overdue(Letters(dead, call.queue.name), call)))
      ensures forall n :: n != call.queue.name ==> Letters(dead, n) == old(Letters(dead, n))
    {
      var letters := Letters(dead, call.queue.name);
      var expired := Overdue(letters, call);
      assert expired == {} ==> letters == Without(letters, expired);
      if expired != {} {
        var table := Listing(expired);
        var chunks := new ChunkIterator(table, call.maxUnpack);
        var kept := letters;
        ghost var removed := 0;
        var chunk := chunks.Next();
        while chunk.Some?
          invariant chunks.Valid() && fresh(chunks) && chunks.table == table
          invariant dead == old(dead)
          invariant 0 <= removed <= chunks.i && kept == Without(letters, Elements(table[..removed]))
          invariant chunk.None? ==> removed == |table|
          invariant chunk.Some? ==> removed < chunks.i && chunk.value == table[removed..chunks.i]
          decreases |table| - removed
        {
          assert table[..chunks.i] == table[..removed] + chunk.value;
          kept := Without(kept, Elements(chunk.value));
          removed := chunks.i;
          chunk := chunks.Next();
        }
        assert table[..|table|] == table;
        dead := PutLetters(dead, call.queue.name, kept);
      }
    }

    /** Sweeps one dead worker off the queue, and off the heartbeats if that
        was the last of its leases. */
    method SweepWorker(q: Queue, w: Worker)
      modifies this`beats, this`queues
      ensures forall p :: p != q ==> At(queues, p) == old(At(queues, p))
      ensures GaveBack(old(At(queues, q)), w, At(queues, q))
      ensures beats == if HasLeases(queues, w) then old(beats) else old(beats) - {w}
    {
      ReturnLeases(q, w);
      if !HasLeases(queues, w) {
        beats := beats - {w};
      }
    }

    /** One round of the loop below. */
    method SweepNext(call: Call, w: Worker, ghost beats0: map<Worker, nat>, ghost qd: QueueDb, ghost swept: set<Worker>)
      requires Sound(qd) && w !in swept
      requires QueueSwept(qd, swept, At(queues, call.queue)) && BeatsSwept(beats0, swept, queues, beats)
      modifies this`beats, this`queues
      ensures forall q :: q != call.queue ==> At(queues, q) == old(At(queues, q))
      ensures QueueSwept(qd, swept + {w}, At(queues, call.queue)) && BeatsSwept(beats0, swept + {w}, queues, beats)
    {
      ghost var qs, bs := queues, beats;
      SweepWorker(call.queue, w);
      SweepOne(qd, swept, w, At(qs, call.queue), At(queues, call.queue));
      BeatsSweptOne(beats0, swept, w, call.queue, qs, queues, bs, beats);
    }

    method SweepWorkers(call: Call)
      requires Sound(At(queues, call.queue))
      modifies this`beats, this`queues
      ensures QueueSwept(old(At(queues, call.queue)), old(DeadWorkers(Contents(), call)), At(queues, call.queue))
      ensures forall q :: q != call.queue ==> At(queues, q) == old(At(queues, q))
      ensures BeatsSwept(old(beats), old(DeadWorkers(Contents(), call)), queues, beats)
    {
      ghost var beats0, queues0, qd := beats, queues, At(queues, call.queue);
      var gone := Listing(set w | w in beats && beats[w] <= call.now - call.heartbeatTimeout);
      assert Elements(gone[..0]) == {};
      SweepNone(qd, beats, queues);
      for i := 0 to |gone|
        invariant QueueSwept(qd, Elements(gone[..i]), At(queues, call.queue))
        invariant forall q :: q != call.queue ==> At(queues, q) == At(queues0, q)
        invariant BeatsSwept(beats0, Elements(gone[..i]), queues, beats)
      {
        DistinctNext(gone, i);
        SweepNext(call, gone[i], beats0, qd, Elements(gone[..i]));
      }
      assert gone[..|gone|] == gone;
    }

    method Maintain(call: Call)
      requires Sound(At(queues, call.queue)) && 0 < call.maxUnpack
      modifies this`beats, this`queues, this`dead
      ensures Swept(old(Contents()), call, Contents())
    {
      SweepWorkers(call);
      ExpireLetters(call);
    }

    method Fetch(call: Call) returns (found: seq<Option<Data>>)
      requires call.command.Fetch?
      modifies this`queues
      ensures queues == Put(old(queues), call.queue, QueueAfter(old(At(queues, call.queue)), call))
      ensures Messages(found) == Answer(old(Contents()), call)
      ensures old(At(queues, call.queue)).list[|found|..] == At(queues, call.queue).list
      ensures |found| < call.command.prefetch && |found| < call.maxUnpack ==> At(queues, call.queue).list == []
    {
      var qd := At(queues, call.queue);
      var prefetch := Min(call.command.prefetch, call.maxUnpack);
      var list, acks, ids, i := qd.list, qd.acks, [], 1;
      while i <= prefetch && list != []
        invariant queues == old(queues)
        invariant |ids| <= |qd.list| && ids == qd.list[..|ids|] && list == qd.list[|ids|..]
        invariant i == |ids| + 1 && (0 < |ids| ==> |ids| <= prefetch)
        invariant acks == SetLeases(qd.acks, call.worker, Leases(qd.acks, call.worker) + Elements(ids))
      {
        assert qd.list[..|ids| + 1] == ids + [list[0]];
        assert Elements(ids + [list[0]]) == Elements(ids) + {list[0]};
        LeaseOneMore(qd.acks, call.worker, Elements(ids), list[0]);
        ids := ids + [list[0]];
        acks := SetLeases(acks, call.worker, Leases(acks, call.worker) + {list[0]});
        list := list[1..];
        i := i + 1;
      }
      assert |ids| == Taken(qd, call.command.prefetch, call.maxUnpack);
      assert QueueDb(list, qd.msgs, acks) == QueueAfter(qd, call);
      queues := Put(queues, call.queue, QueueDb(list, qd.msgs, acks));
      found := if ids != [] then Payloads(qd.msgs, ids) else [];
    }

    method Requeue(call: Call)
      requires call.command.Requeue?
      modifies this`queues
      ensures queues == Put(old(queues), call.queue, QueueAfter(old(At(queues, call.queue)), call))
    {
      var qd, ids := At(queues, call.queue), call.command.ids;
      ghost var before := qd;
      for i := 0 to |ids|
        invariant qd == Requeued(before, call.worker, ids[..i])
      {
        assert ids[..i + 1][..i] == ids[..i];
        if ids[i] in Leases(qd.acks, call.worker) {
          var acks := SetLeases(qd.acks, call.worker, Leases(qd.acks, call.worker) - {ids[i]});
          if ids[i] in qd.msgs {
            qd := QueueDb(qd.list + [ids[i]], qd.msgs, acks);
          } else {
            qd := QueueDb(qd.list, qd.msgs, acks);
          }
        }
      }
      assert ids[..|ids|] == ids;
      queues := Put(queues, call.queue, qd);
    }

    method Nack(call: Call)
      requires call.command.Nack?
      modifies this`queues, this`dead
      ensures Contents() == old(Execute(Contents(), call))
    {
      var qd, id, name := At(queues, call.queue), call.command.id, call.queue.name;
      if id in Leases(qd.acks, call.worker) {
        var acks := SetLeases(qd.acks, call.worker, Leases(qd.acks, call.worker) - {id});
        if id in qd.msgs {
          dead := PutLetters(dead, name, Buried(Letters(dead, name), id, call.now, qd.msgs[id]));
        }
        queues := Put(queues, call.queue, QueueDb(qd.list, qd.msgs - {id}, acks));
      }
    }

    method Run(call: Call) returns (reply: Reply)
      modifies this`queues, this`dead
      ensures Contents() == old(Execute(Contents(), call))
      ensures reply == old(Answer(Contents(), call))
    {
      var qd := At(queues, call.queue);
      reply := NoReply;
      match call.command {
        case Enqueue(id, data) =>
          queues := Put(queues, call.queue, QueueDb(qd.list + [id], qd.msgs[id := data], qd.acks));
        case Fetch(_) =>
          var found := Fetch(call);
          reply := Messages(found);
        case Requeue(_) =>
          Requeue(call);
        case Ack(id) =>
          if id in Leases(qd.acks, call.worker) {
            var acks := SetLeases(qd.acks, call.worker, Leases(qd.acks, call.worker) - {id});
            queues := Put(queues, call.queue, QueueDb(qd.list, qd.msgs - {id}, acks));
          }
        case Nack(_) =>
          Nack(call);
        case Purge =>
          queues := Put(queues, call.queue, QueueDb([], map[], SetLeases(qd.acks, call.worker, {})));
          dead := PutLetters(dead, call.queue.name, DeadLetters(map[], map[]));
        case QSize =>
          reply := Size(QueueSize(Db(beats, queues, dead), call.worker, call.queue.name));
      }
    }

    /** One call of the script, atomic in Redis. */
    method Dispatch(call: Call) returns (reply: Reply)
      requires Valid() && Enabled(st, call) && 0 < call.maxUnpack
      modifies this
      ensures Valid()
      ensures exists mid :: StepVia(old(System()), call, mid, System()) && reply == Answer(mid, call)
      ensures call.command.Fetch? ==>
                && reply.Messages? && (reply.found != [] ==> |reply.found| <= call.command.prefetch)
                && (|reply.found| < call.command.prefetch && |reply.found| < call.maxUnpack ==>
                      At(queues, call.queue).list == [])
      ensures call.command.Enqueue? ==>
                var list := At(queues, call.queue).list; list != [] && list[|list| - 1] == call.command.id
      ensures call.command.Purge? ==>
                var qd := At(queues, call.queue);
                qd.list == [] && qd.msgs == map[] && Leases(qd.acks, call.worker) == {}
    {
      ghost var s := System();
      beats := beats[call.worker := call.now];
      BeatAgrees(s, call);
      AgreeIsSound(Contents(), st, call.queue);
      if call.maintain {
        Maintain(call);
      }
      ghost var mid := Contents();
      reply := Run(call);
      st := Move(Tidy(st, Beat(s.db, call), call), mid, call);
      assert StepVia(s, call, mid, System());
      StepRefines(s, call, System());
      CommandEffects(mid, call);
    }
  }

  lemma CommandEffects(db: Db, call: Call)
    ensures var qd, reply := At(Execute(db, call).queues, call.queue), Answer(db, call);
            && (call.command.Fetch? ==>
                  && reply.Messages? && (reply.found != [] ==> |reply.found| <= call.command.prefetch)
                  && (|reply.found| < call.command.prefetch && |reply.found| < call.maxUnpack ==> qd.list == []))
            && (call.command.Enqueue? ==> qd.list != [] && qd.list[|qd.list| - 1] == call.command.id)
            && (call.command.Purge? ==> qd.list == [] && qd.msgs == map[] && Leases(qd.acks, call.worker) == {})
  {
    match call.command
    case Fetch(_) => var found, ids, rest := FetchTakesHead(db, call);
    case Enqueue(id, data) => EnqueueAppends(db, call, id, data);
    case Purge => PurgeEmpties(db, call);
    case _ =>
  }

  lemma LeaseOneMore(acks: map<Worker, set<Id>>, w: Worker, more: set<Id>, id: Id)
    ensures var held := Leases(acks, w);
            SetLeases(SetLeases(acks, w, held + more), w, held + more + {id})
            == SetLeases(acks, w, held + (more + {id}))
  {
    var held := Leases(acks, w);
    assert held + more + {id} == held + (more + {id});
    assert held + (more + {id}) == held ==> held + more == held;
  }

  /** Only workers with no ack keys left lose their heartbeat. */
  ghost predicate BeatsSwept(
    before: map<Worker, nat>, gone: set<Worker>, queues: map<Queue, QueueDb>, after: map<Worker, nat>)
  {
    && (forall w :: w in after <==> w in before && (w in gone ==> HasLeases(queues, w)))
    && (forall w :: w in after ==> after[w] == before[w])
  }

  /** `qd'` is `qd` with the leases of `w` given back. */
  ghost predicate GaveBack(qd: QueueDb, w: Worker, qd': QueueDb) {
    && qd'.msgs == qd.msgs
    && (forall v :: Leases(qd'.acks, v) == if v == w then {} else Leases(qd.acks, v))
    && qd.list <= qd'.list
    && Returned(qd, {w}, qd'.list[|qd.list|..])
  }

  lemma SweepOne(before: QueueDb, gone: set<Worker>, w: Worker, qd: QueueDb, qd': QueueDb)
    requires Sound(before) && w !in gone
    requires QueueSwept(before, gone, qd) && GaveBack(qd, w, qd')
    ensures QueueSwept(before, gone + {w}, qd')
  {
    var a, b := qd.list[|before.list|..], qd'.list[|qd.list|..];
    assert qd'.list[|before.list|..] == a + b;
    forall id | id in a ensures id !in b {
      var v :| v in gone && id in Leases(before.acks, v);
    }
    DistinctAppend(a, b);
  }

  lemma SweepNone(qd: QueueDb, beats: map<Worker, nat>, queues: map<Queue, QueueDb>)
    ensures QueueSwept(qd, {}, qd) && BeatsSwept(beats, {}, queues, beats)
  {
    assert qd.list[|qd.list|..] == [];
  }

  lemma SameLeases(q: Queue, v: Worker, queues: map<Queue, QueueDb>, queues': map<Queue, QueueDb>)
    requires forall p :: p != q ==> At(queues', p) == At(queues, p)
    requires Leases(At(queues', q).acks, v) == Leases(At(queues, q).acks, v)
    ensures HasLeases(queues', v) <==> HasLeases(queues, v)
  {
    if HasLeases(queues, v) {
      var p :| p in queues && Leases(At(queues, p).acks, v) != {};
      assert Leases(At(queues', p).acks, v) != {};
    }
    if HasLeases(queues', v) {
      var p :| p in queues' && Leases(At(queues', p).acks, v) != {};
      assert Leases(At(queues, p).acks, v) != {};
    }
  }

  lemma BeatsSweptOne(before: map<Worker, nat>, gone: set<Worker>, w: Worker, q: Queue,
                      queues: map<Queue, QueueDb>, queues': map<Queue, QueueDb>,
                      after: map<Worker, nat>, after': map<Worker, nat>)
    requires BeatsSwept(before, gone, queues, after) && w !in gone
    requires forall p :: p != q ==> At(queues', p) == At(queues, p)
    requires GaveBack(At(queues, q), w, At(queues', q))
    requires after' == if HasLeases(queues', w) then after else after - {w}
    ensures BeatsSwept(before, gone + {w}, queues', after')
  {
    forall v | v != w ensures HasLeases(queues', v) <==> HasLeases(queues, v) {
      SameLeases(q, v, queues, queues');
    }
  }
}
