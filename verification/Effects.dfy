/** What each command of the script does to the lists, hashes and sets, in their
    own terms.  `db` is the database after maintenance. */
module Effects {
  import opened Keyspace
  import opened Sequences
  import opened DispatchSpec
  import opened Lifecycle

  /** No queue but the caller's changes, and of that only the caller's leases. */
  lemma OthersUntouched(db: Db, call: Call)
    ensures Execute(db, call).beats == db.beats
    ensures forall q :: q != call.queue ==> At(Execute(db, call).queues, q) == At(db.queues, q)
    ensures forall w :: w != call.worker ==>
              Leases(At(Execute(db, call).queues, call.queue).acks, w) == Leases(At(db.queues, call.queue).acks, w)
    ensures forall n :: n != call.queue.name || !(call.command.Nack? || call.command.Purge?) ==>
              Letters(Execute(db, call).dead, n) == Letters(db.dead, n)
  {
    if call.command.Requeue? {
      var back := RequeuedIs(At(db.queues, call.queue), call.worker, call.command.ids);
    }
  }

  /** An enqueue adds the id to the end of the list, and its payload. */
  lemma EnqueueAppends(db: Db, call: Call, id: Id, data: Data)
    requires call.command == Enqueue(id, data)
    ensures var qd, qd' := At(db.queues, call.queue), At(Execute(db, call).queues, call.queue);
            && |qd'.list| == |qd.list| + 1 && qd.list <= qd'.list && qd'.list[|qd.list|] == id
            && id in qd'.msgs && qd'.msgs[id] == data
            && qd'.msgs - {id} == qd.msgs - {id}
            && Leases(qd'.acks, call.worker) == Leases(qd.acks, call.worker)
  {
  }

  /** A fetch takes as many ids off the head of the list as the prefetch and the
      unpack limit allow, leases exactly those, and answers with their payloads
      in order. */
  lemma FetchTakesHead(db: Db, call: Call) returns (found: seq<Option<Data>>, ids: seq<Id>, rest: seq<Id>)
    requires call.command.Fetch?
    ensures Answer(db, call) == Messages(found) && |ids| == |found|
    ensures At(db.queues, call.queue).list == ids + rest
    ensures At(Execute(db, call).queues, call.queue).list == rest
    ensures At(Execute(db, call).queues, call.queue).msgs == At(db.queues, call.queue).msgs
    ensures ids != [] ==> |ids| <= call.command.prefetch && |ids| <= call.maxUnpack
    ensures |ids| < call.command.prefetch && |ids| < call.maxUnpack ==> rest == []
    ensures forall i :: 0 <= i < |ids| ==>
              var msgs := At(db.queues, call.queue).msgs;
              found[i] == if ids[i] in msgs then Some(msgs[ids[i]]) else None
    ensures forall id :: id in Leases(At(Execute(db, call).queues, call.queue).acks, call.worker) <==>
              id in Leases(At(db.queues, call.queue).acks, call.worker) || id in ids
  {
    var qd := At(db.queues, call.queue);
    var n := Taken(qd, call.command.prefetch, call.maxUnpack);
    found, ids, rest := Payloads(qd.msgs, qd.list[..n]), qd.list[..n], qd.list[n..];
  }

  /** A requeue appends, in the order of the arguments, the leases that still have
      a payload, and gives up all the leases it names. */
  lemma RequeueAppends(db: Db, call: Call, ids: seq<Id>) returns (back: seq<Id>)
    requires call.command == Requeue(ids)
    ensures var qd, qd' := At(db.queues, call.queue), At(Execute(db, call).queues, call.queue);
            && qd'.list == qd.list + back && qd'.msgs == qd.msgs && Distinct(back)
            && (forall id :: id in back <==> id in ids && id in Leases(qd.acks, call.worker) && id in qd.msgs)
            && (forall id :: id in Leases(qd'.acks, call.worker) <==> id in Leases(qd.acks, call.worker) && id !in ids)
            && forall i, j :: 0 <= i < j < |ids| && Distinct(ids) && ids[i] in back && ids[j] in back ==>
                 Before(back, ids[i], ids[j])
  {
    back := RequeuedIs(At(db.queues, call.queue), call.worker, ids);
    if Distinct(ids) {
      back := RequeuedInOrder(At(db.queues, call.queue), call.worker, ids);
    }
  }

  lemma {:induction false} RequeuedInOrder(qd: QueueDb, w: Worker, ids: seq<Id>) returns (back: seq<Id>)
    requires Distinct(ids)
    ensures Requeued(qd, w, ids).list == qd.list + back && Distinct(back)
    ensures forall id :: id in back <==> id in ids && id in Leases(qd.acks, w) && id in qd.msgs
    ensures forall i, j :: 0 <= i < j < |ids| && ids[i] in back && ids[j] in back ==> Before(back, ids[i], ids[j])
  {
    back := RequeuedIs(qd, w, ids);
    if ids != [] {
      var front, last := ids[..|ids| - 1], ids[|ids| - 1];
      var earlier := RequeuedInOrder(qd, w, front);
      var before := RequeuedIs(qd, w, front);
      assert earlier == before == Requeued(qd, w, front).list[|qd.list|..];
      assert last !in front;
      var kept := if last in back then [last] else [];
      assert back == earlier + kept by {
        assert Requeued(qd, w, ids).list == Requeued(qd, w, front).list + kept;
        assert back == Requeued(qd, w, ids).list[|qd.list|..];
      }
      forall i, j | 0 <= i < j < |ids| && ids[i] in back && ids[j] in back ensures Before(back, ids[i], ids[j]) {
        assert ids[i] == front[i];
        if j < |front| {
          assert ids[j] == front[j];
          BeforeGrows(earlier, back, ids[i], ids[j]);
        } else {
          BeforeAppended(earlier, kept, ids[i], last);
        }
      }
    }
  }

  /** An ack by the holder drops lease and payload; by anyone else, nothing. */
  lemma AckDrops(db: Db, call: Call, id: Id)
    requires call.command == Ack(id)
    ensures var qd, qd' := At(db.queues, call.queue), At(Execute(db, call).queues, call.queue);
            if id !in Leases(qd.acks, call.worker) then qd' == qd
            else
              && qd'.list == qd.list && id !in qd'.msgs
              && qd'.msgs - {id} == qd.msgs - {id}
              && Leases(qd'.acks, call.worker) == Leases(qd.acks, call.worker) - {id}
  {
  }

  /** A nack by the holder also moves the payload to the dead letters, as of now. */
  lemma NackBuries(db: Db, call: Call, id: Id)
    requires call.command == Nack(id)
    ensures var qd, qd' := At(db.queues, call.queue), At(Execute(db, call).queues, call.queue);
            var letters := Letters(db.dead, call.queue.name);
            var letters' := Letters(Execute(db, call).dead, call.queue.name);
            if id !in Leases(qd.acks, call.worker) then qd' == qd && letters' == letters
            else
              && qd'.list == qd.list && id !in qd'.msgs
              && qd'.msgs - {id} == qd.msgs - {id}
              && Leases(qd'.acks, call.worker) == Leases(qd.acks, call.worker) - {id}
              && if id in qd.msgs
                 then
                   && letters'.scores == letters.scores[id := call.now]
                   && letters'.msgs == letters.msgs[id := qd.msgs[id]]
                 else letters' == letters
  {
  }

  /** A purge leaves nothing of the queue, its dead letters and the caller's
      leases on it. */
  lemma PurgeEmpties(db: Db, call: Call)
    requires call.command == Purge
    ensures var qd' := At(Execute(db, call).queues, call.queue);
            && qd'.list == [] && qd'.msgs == map[] && Leases(qd'.acks, call.worker) == {}
    ensures Letters(Execute(db, call).dead, call.queue.name) == DeadLetters(map[], map[])
  {
  }

  /** A size query changes nothing and counts two hashes and two lease sets. */
  lemma SizeAnswers(db: Db, call: Call)
    requires call.command == QSize
    ensures Execute(db, call) == db
    ensures var q, dq := At(db.queues, Queue(call.queue.name, false)), At(db.queues, Queue(call.queue.name, true));
            Answer(db, call)
            == Size(|q.msgs| + |Leases(q.acks, call.worker)| + |dq.msgs| + |Leases(dq.acks, call.worker)|)
  {
  }

  /** The caller's heartbeat is the time of the call, the others' are as they were,
      unless maintenance has dropped them. */
  lemma HeartbeatIsNow(s: Sys, call: Call, s': Sys, w: Worker)
    requires Step(s, call, s') && w in s'.db.beats
    ensures if w == call.worker then s'.db.beats[w] == call.now
            else w in s.db.beats && s'.db.beats[w] == s.db.beats[w]
  {
    var mid :| StepVia(s, call, mid, s');
    OthersUntouched(mid, call);
  }

  /** Maintenance expires exactly the dead letters of the queue that are at least
      `deadTtl` old, set and hash alike. */
  lemma LettersExpire(s: Sys, call: Call, s': Sys, id: Id)
    requires Step(s, call, s') && !call.command.Nack? && !call.command.Purge?
    ensures var letters, letters' := Letters(s.db.dead, call.queue.name), Letters(s'.db.dead, call.queue.name);
            && (id in letters'.scores <==>
                  id in letters.scores && !(call.maintain && letters.scores[id] <= call.now - call.deadTtl))
            && (id in letters.scores ==> (id in letters'.msgs <==> id in letters.msgs && id in letters'.scores))
            && (id in letters'.scores ==> letters'.scores[id] == letters.scores[id])
  {
    var mid :| StepVia(s, call, mid, s');
    OthersUntouched(mid, call);
  }
}
