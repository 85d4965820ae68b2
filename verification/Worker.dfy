/** The worker's threads: the delay queue of a consumer thread, and what a
    worker thread does with one message. */
module Workers {
  import opened Keyspace
  import opened NoLoss
  import opened Sequences
  import R = Retries

  // ----- queue items

  datatype Item = Item(priority: int, queued: nat, message: Message)

  /** The order of queue items: by priority, then by time of queueing. */
  predicate NotAfter(a: Item, b: Item) {
    a.priority < b.priority || (a.priority == b.priority && a.queued <= b.queued)
  }

  ghost predicate Sorted(items: seq<Item>) {
    forall i, j :: 0 <= i < j < |items| ==> NotAfter(items[i], items[j])
  }

  class PriorityQueue {
    var items: seq<Item>
    var unfinished: nat

    constructor ()
      ensures items == [] && unfinished == 0
    {
      items, unfinished := [], 0;
    }

    method Put(item: Item)
      modifies this
      ensures multiset(items) == multiset(old(items)) + multiset{item}
      ensures unfinished == old(unfinished) + 1
    {
      items, unfinished := items + [item], unfinished + 1;
    }

    method GetNowait() returns (item: Option<Item>)
      modifies this`items
      ensures item.None? <==> old(items) == []
      ensures item.None? ==> items == []
      ensures item.Some? ==> multiset(old(items)) == multiset(items) + multiset{item.value}
      ensures item.Some? ==> forall x :: x in old(items) ==> NotAfter(item.value, x)
      ensures item.Some? ==> forall x :: x in old(items) ==>
                item.value.priority <= x.priority
                && (item.value.priority == x.priority ==> item.value.queued <= x.queued)
    {
      if items == [] {
        return None;
      }
      var least := 0;
      for i := 1 to |items|
        invariant 0 <= least < |items|
        invariant forall j :: 0 <= j < i ==> NotAfter(items[least], items[j])
      {
        if !NotAfter(items[least], items[i]) {
          least := i;
        }
      }
      item := Some(items[least]);
      assert items == items[..least] + [items[least]] + items[least + 1..];
      items := items[..least] + items[least + 1..];
    }

    method TaskDone()
      requires 0 < unfinished
      modifies this`unfinished
      ensures unfinished == old(unfinished) - 1
    {
      unfinished := unfinished - 1;
    }
  }

  class Clock {
    var now: int

    constructor (now: int)
      ensures this.now == now
    {
      this.now := now;
    }

    method CurrentMillis() returns (t: int)
      modifies this
      ensures old(now) <= t == now
    {
      t := *;
      if t < now {
        t := now;
      }
      now := t;
    }
  }

  /** The `eta` option of a message. */
  datatype Eta = NoEta | NoneEta | EtaAt(at: int) | BadEta

  // ----- the consumer thread

  class ConsumerThread {
    const queue: Queue
    const delayQueue: PriorityQueue
    const workQueue: PriorityQueue
    const clock: Clock

    /** The attempts at broker calls so far. */
    var attempts: seq<Attempt>

    /** How many more of them meet a connection error. */
    var outages: nat

    constructor (queue: Queue, workQueue: PriorityQueue, clock: Clock, outages: nat)
      ensures this.queue == queue && this.workQueue == workQueue && this.clock == clock
      ensures fresh(delayQueue) && attempts == []
    {
      this.queue, this.workQueue, this.clock, this.outages, attempts := queue, workQueue, clock, outages, [];
      delayQueue := new PriorityQueue();
    }

    /** A call that meets a connection error may or may not have been made. */
    method Try(call: BrokerCall) returns (answered: bool, ghost a: Attempt)
      modifies this`attempts, this`outages
      ensures a.call == call && a.answered == answered && (answered ==> a.made)
      ensures attempts == old(attempts) + [a]
      ensures outages <= old(outages) && (!answered ==> outages < old(outages))
    {
      var reaches: bool, replies: bool := *, *;
      answered := outages == 0 || (reaches && replies);
      if !answered {
        outages := outages - 1;
      }
      a := Attempt(call, answered || reaches, answered);
      attempts := attempts + [Attempt(call, answered || reaches, answered)];
    }

    /** `broker.enqueue`, which raises on a connection error. */
    method Enqueue(messageId: nat, to: Queue) returns (ok: bool, ghost a: Attempt)
      modifies this`attempts, this`outages
      ensures a.call == Send(messageId, to) && a.answered == ok && (ok ==> a.made)
      ensures attempts == old(attempts) + [a]
    {
      ok, a := Try(Send(messageId, to));
    }

    /** Repeats the ack or nack until it is answered, and does nothing else. */
    method PostProcessMessage(message: Message, failed: bool) returns (ghost made: seq<Attempt>)
      modifies this`attempts, this`outages
      ensures attempts == old(attempts) + made && made != []
      ensures forall a :: a in made ==> a.call == if failed then NackCall(message.redisId) else AckCall(message.redisId)
      ensures forall i :: 0 <= i < |made| ==> (made[i].answered <==> i == |made| - 1)
      ensures Left(Settle(message, failed), made) == Some([])
    {
      made := [];
      while true
        invariant attempts == old(attempts) + made && Unanswered(Settle(message, failed)[0], made)
        invariant forall a :: a in made ==>
                    a.call == (if failed then NackCall(message.redisId) else AckCall(message.redisId)) && !a.answered
        decreases outages
      {
        var answered;
        ghost var a;
        answered, a := Try(if failed then NackCall(message.redisId) else AckCall(message.redisId));
        if answered {
          AnsweredSettles(Settle(message, failed)[0], made, a);
          made := made + [a];
          return;
        }
        made := made + [a];
      }
    }

    /** A message with an eta is delayed, one without goes to its actor, and one
        without an actor is rejected. */
    method HandleMessage(message: Message, eta: Eta, actorPriority: Option<int>, queued: nat)
      returns (ghost at: int, ghost made: seq<Attempt>)
      requires delayQueue != workQueue
      modifies this`attempts, this`outages, delayQueue, workQueue, clock
      ensures old(clock.now) <= at <= clock.now
      ensures var delayed := eta.EtaAt? || eta.BadEta?;
              && multiset(delayQueue.items)
                 == multiset(old(delayQueue.items))
                    + (if delayed then multiset{Item(if eta.EtaAt? then eta.at else at, queued, message)}
                       else multiset{})
              && multiset(workQueue.items)
                 == multiset(old(workQueue.items))
                    + (if !delayed && actorPriority.Some? then multiset{Item(actorPriority.value, queued, message)}
                       else multiset{})
              && attempts == old(attempts) + made
              && Left(if !delayed && actorPriority.None? then Settle(message, true) else [], made) == Some([])
              && (made != [] <==> !delayed && actorPriority.None?)
      ensures forall a :: a in made ==> a.call == NackCall(message.redisId)
    {
      at, made := clock.now, [];
      var due := None;
      match eta {
        case NoEta =>
        case NoneEta =>
        case EtaAt(t) => due := Some(t);
        case BadEta =>
          var t := clock.CurrentMillis();
          at, due := t, Some(t);
      }
      if due.Some? {
        delayQueue.Put(Item(due.value, queued, message));
      } else if actorPriority.Some? {
        workQueue.Put(Item(actorPriority.value, queued, message));
      } else {
        made := PostProcessMessage(message, true);
      }
    }

    /** One round of the loop below.  When the enqueue raises, the item in hand
        is neither released nor put back: it stays leased. */
    method ReleaseNext() returns (r: Round, ghost made: seq<Attempt>)
      requires |delayQueue.items| <= delayQueue.unfinished
      modifies this`attempts, this`outages, delayQueue, clock
      ensures |delayQueue.items| <= delayQueue.unfinished && old(clock.now) <= clock.now
      ensures multiset(old(delayQueue.items)) == multiset(delayQueue.items) + InHand(r)
      ensures !r.Idle? ==> forall x :: x in old(delayQueue.items) ==> NotAfter(r.item, x)
      ensures r.Released? ==> r.item.priority <= clock.now
      ensures r.Idle? ==> forall x :: x in delayQueue.items ==> clock.now < x.priority
      ensures delayQueue.unfinished == old(delayQueue.unfinished) - if r.Released? then 1 else 0
      ensures attempts == old(attempts) + made && Follows(r, queue, made)
      ensures !r.Idle? ==> forall x :: x in old(delayQueue.items) && x.priority == r.item.priority ==>
                r.item.queued <= x.queued
    {
      hide Left, HandOff, Settle;
      made := [];
      ghost var before := delayQueue.items;
      var got := delayQueue.GetNowait();
      if got.None? {
        return Idle, made;
      }
      var item := got.value;
      MembersOf(before, delayQueue.items, item);
      var now := clock.CurrentMillis();
      if item.priority > now {
        delayQueue.Put(item);
        delayQueue.TaskDone();
        SameMembers(before, delayQueue.items);
        return Idle, made;
      }
      var ok;
      ghost var a, settled;
      ok, a := Enqueue(item.message.messageId, Queue(queue.name, false));
      if !ok {
        SendAlone(item.message, queue, a);
        return Lost(item), [a];
      }
      settled := PostProcessMessage(item.message, false);
      delayQueue.TaskDone();
      SendThenSettle(item.message, queue, false, false, a, settled);
      return Released(item), [a] + settled;
    }

    /** Hands every message whose eta has passed back to its queue, in order:
        each is enqueued first and acked then. */
    method HandleDelayedMessages() returns (released: seq<Item>, last: Round, ghost made: seq<seq<Attempt>>)
      requires |delayQueue.items| <= delayQueue.unfinished
      modifies this`attempts, this`outages, delayQueue, clock
      ensures multiset(old(delayQueue.items)) == multiset(delayQueue.items) + multiset(released) + InHand(last)
      ensures !last.Released?
      ensures ReleasedInTime(released, delayQueue.items, clock.now)
      ensures last.Idle? ==> forall x :: x in delayQueue.items ==> clock.now < x.priority
      ensures delayQueue.unfinished == old(delayQueue.unfinished) - |released|
      ensures attempts == old(attempts) + Joined(made) && |made| == |released| + 1
      ensures Follows(last, queue, made[|released|])
      ensures forall i :: 0 <= i < |released| ==> Follows(Released(released[i]), queue, made[i])
    {
      hide *;
      released, last, made := [], Idle, [];
      NothingReleased(delayQueue.items, clock.now);
      while true
        invariant |delayQueue.items| <= delayQueue.unfinished
        invariant multiset(old(delayQueue.items)) == multiset(delayQueue.items) + multiset(released)
        invariant ReleasedInTime(released, delayQueue.items, clock.now)
        invariant delayQueue.unfinished == old(delayQueue.unfinished) - |released|
        invariant attempts == old(attempts) + Joined(made) && |made| == |released|
        invariant forall i :: 0 <= i < |released| ==> Follows(Released(released[i]), queue, made[i])
        decreases |delayQueue.items|
      {
        ghost var before, earlier, one := delayQueue.items, clock.now, [];
        last, one := ReleaseNext();
        OneRound(released, before, earlier, delayQueue.items, clock.now, last);
        JoinedAppend(made, one);
        made := made + [one];
        if !last.Released? {
          assert released + [] == released;
          return;
        }
        released := released + [last.item];
      }
    }
  }

  datatype Round = Idle | Released(item: Item) | Lost(item: Item)

  ghost function InHand(r: Round): multiset<Item> {
    if r.Idle? then multiset{} else multiset{r.item}
  }

  /** The broker calls of a round: the enqueue on the queue itself, and if it was
      answered then acks of the item, the last of them answered. */
  ghost predicate Follows(r: Round, queue: Queue, made: seq<Attempt>) {
    if r.Idle? then made == []
    else
      && made != [] && made[0].call == Send(r.item.message.messageId, Queue(queue.name, false))
      && Left(HandOff(r.item.message, queue, false, false), made).Some?
      && if r.Lost? then |made| == 1 && !made[0].answered
         else
           && 1 < |made| && made[0].answered && made[|made| - 1].answered
           && (forall i :: 1 <= i < |made| ==> made[i].call == AckCall(r.item.message.redisId))
           && Left(HandOff(r.item.message, queue, false, false), made) == Some([])
  }

  lemma SendAlone(m: Message, q: Queue, a: Attempt)
    requires a.call == Send(m.messageId, Queue(q.name, false))
    ensures Left(HandOff(m, q, false, false), [a]).Some?
  {
    assert [a][1..] == [];
  }

  lemma BothAccepted(m: Message, q: Queue, failed: bool)
    ensures Accepted(m, q, false, Settle(m, failed)) && Accepted(m, q, true, HandOff(m, q, true, failed))
  {
  }

  /** Whatever a round does follows a program that `NoLoss` accepts. */
  lemma RoundIsAccepted(r: Round, queue: Queue, made: seq<Attempt>)
    requires Follows(r, queue, made) && !r.Idle?
    ensures exists program ::
              Accepted(r.item.message, queue, true, program) && Left(program, made).Some?
              && (r.Released? ==> Left(program, made) == Some([]))
  {
    assert Accepted(r.item.message, queue, true, HandOff(r.item.message, queue, false, false));
  }

  ghost function Joined(parts: seq<seq<Attempt>>): seq<Attempt> {
    if parts == [] then [] else Joined(parts[..|parts| - 1]) + parts[|parts| - 1]
  }

  lemma JoinedAppend(parts: seq<seq<Attempt>>, one: seq<Attempt>)
    ensures Joined(parts + [one]) == Joined(parts) + one
  {
    assert (parts + [one])[..|parts|] == parts;
  }

  ghost predicate Unanswered(call: BrokerCall, made: seq<Attempt>) {
    forall a :: a in made ==> a.call == call && !a.answered
  }

  lemma {:induction false} AnsweredSettles(call: BrokerCall, made: seq<Attempt>, last: Attempt)
    requires !call.Send? && Unanswered(call, made) && last.call == call && last.made && last.answered
    ensures Left([call], made + [last]) == Some([])
  {
    if made == [] {
      assert made + [last] == [last] && [last][1..] == [] && [call][1..] == [];
    } else {
      assert made[0] in made;
      AnsweredSettles(call, made[1..], last);
      assert (made + [last])[1..] == made[1..] + [last];
    }
  }

  /** An enqueue that was made, then the settlement: a hand-off.  An enqueue that
      was not made leaves the settlement alone. */
  lemma SendThenSettle(m: Message, q: Queue, delayed: bool, failed: bool, a: Attempt, settled: seq<Attempt>)
    requires a.call == Send(m.messageId, Queue(q.name, delayed)) && Left(Settle(m, failed), settled) == Some([])
    ensures Left(if a.made then HandOff(m, q, delayed, failed) else Settle(m, failed), [a] + settled) == Some([])
  {
    assert ([a] + settled)[1..] == settled;
    assert HandOff(m, q, delayed, failed)[1..] == Settle(m, failed);
  }

  /** What left the delay queue was due and came out by eta and time of
      queueing, all of it before what is left. */
  ghost predicate ReleasedInTime(released: seq<Item>, left: seq<Item>, now: int) {
    && Sorted(released)
    && (forall x :: x in released ==> x.priority <= now)
    && (forall x, y :: x in released && y in left ==> NotAfter(x, y))
  }

  lemma NothingReleased(left: seq<Item>, now: int)
    ensures ReleasedInTime([], left, now) && Joined([]) == []
  {
  }

  lemma OneRound(released: seq<Item>, before: seq<Item>, now: int, left: seq<Item>, now': int, r: Round)
    requires ReleasedInTime(released, before, now) && now <= now'
    requires multiset(before) == multiset(left) + InHand(r)
    requires !r.Idle? ==> forall x :: x in before ==> NotAfter(r.item, x)
    requires r.Released? ==> r.item.priority <= now'
    ensures ReleasedInTime(released + (if r.Released? then [r.item] else []), left, now')
    ensures r.Released? ==> |left| < |before|
    ensures r.Released? ==> multiset(before) == multiset(left) + multiset([r.item])
  {
    if r.Idle? {
      SameMembers(before, left);
    } else {
      MembersOf(before, left, r.item);
    }
  }

  lemma MembersOf(before: seq<Item>, after: seq<Item>, item: Item)
    requires multiset(before) == multiset(after) + multiset{item}
    ensures |after| == |before| - 1 && item in before
    ensures forall x :: x in before <==> x in after || x == item
  {
    assert |multiset(before)| == |before| && |multiset(after)| == |after|;
    forall x ensures x in before <==> x in after || x == item {
      assert x in before <==> x in multiset(before);
      assert x in after <==> x in multiset(after);
    }
  }

  lemma SameMembers(a: seq<Item>, b: seq<Item>)
    requires multiset(a) == multiset(b)
    ensures forall x :: x in a <==> x in b
  {
    forall x ensures x in a <==> x in b {
      assert x in a <==> x in multiset(a);
      assert x in b <==> x in multiset(b);
    }
  }

  // ----- the worker thread

  datatype Run = Succeeded | Skipped | Raised(failure: R.Failure)

  /** What `Retries` needs of a message: its `retries` option, and its flag. */
  class Delivery {
    const message: Message
    var retries: nat
    var failed: bool

    constructor (message: Message, retries: nat)
      ensures this.message == message && this.retries == retries && !failed
    {
      this.message, this.retries, failed := message, retries, false;
    }
  }

  /** The guard of the retries: `retry_when` if there is one, else `max_retries`. */
  predicate Refused(p: R.Policy, retries: int, failure: R.Failure) {
    || (p.retryWhen.Some? && !p.retryWhen.value(retries, failure))
    || (p.retryWhen.None? && p.maxRetries.Some? && retries >= p.maxRetries.value)
  }

  class WorkerThread {
    const queue: Queue
    const policy: Option<R.Policy>
    const consumer: ConsumerThread

    constructor (queue: Queue, policy: Option<R.Policy>, consumer: ConsumerThread)
      ensures this.queue == queue && this.policy == policy && this.consumer == consumer
    {
      this.queue, this.policy, this.consumer := queue, policy, consumer;
    }

    /** `Retries.after_process_message`: the delay that the copy gets, the attempt
        to enqueue it, and the message for the actor that wants to know when
        retries are exhausted. */
    method AfterProcessMessage(d: Delivery, p: R.Policy, failure: R.Failure, j: R.Jitter)
      returns (delay: Option<int>, notice: Option<R.Notice>, ghost made: seq<Attempt>)
      modifies d, consumer`attempts, consumer`outages
      ensures consumer.attempts == old(consumer.attempts) + made
      ensures failure.Expected? ==>
                d.failed && d.retries == old(d.retries) && delay.None? && notice.None? && made == []
      ensures !failure.Expected? ==> d.retries == old(d.retries) + 1
      ensures !failure.Expected? && Refused(p, old(d.retries), failure) ==>
                && d.failed && delay.None? && made == []
                && (notice.Some? <==> p.onExhausted.Some? && p.onExhausted.value != "")
                && (notice.Some? ==> notice.value == R.Notice(p.onExhausted.value, old(d.retries), p.maxRetries))
      ensures !failure.Expected? && !Refused(p, old(d.retries), failure) ==>
                && d.failed == old(d.failed) && notice.None? && delay.Some?
                && |made| == 1 && made[0].call == Send(d.message.messageId, Queue(queue.name, true))
                && (failure.AskedRetry? && failure.delay.Some? ==> delay == failure.delay)
                && (!(failure.AskedRetry? && failure.delay.Some?)
                    && 0 <= p.minBackoff && 0 <= p.maxBackoff && j.Drawn() ==>
                      var base := p.minBackoff * R.Pow2(Min(old(d.retries), 32));
                      var most := Min(p.maxBackoff, 7 * 24 * 3600 * 1000);
                      Min(base, most / 2) <= delay.value <= Min(2 * base, most))
      ensures R.Decide(p, old(d.retries), failure, j)
              == if delay.Some? then R.Again(delay.value) else if failure.Expected? then R.Abort else R.Exhausted
    {
      delay, notice, made := None, None, [];
      if failure.Expected? {
        d.failed := true;
        return;
      }
      var retries := d.retries;
      d.retries := d.retries + 1;
      if (p.retryWhen.Some? && !p.retryWhen.value(retries, failure))
         || (p.retryWhen.None? && p.maxRetries.Some? && retries >= p.maxRetries.value) {
        d.failed := true;
        if p.onExhausted.Some? && p.onExhausted.value != "" {
          notice := Some(R.Notice(p.onExhausted.value, retries, p.maxRetries));
        }
        return;
      }
      if failure.AskedRetry? && failure.delay.Some? {
        delay := failure.delay;
      } else {
        var maxBackoff := Min(p.maxBackoff, R.DEFAULT_MAX_BACKOFF);
        delay := Some(R.Backoff(retries, p.minBackoff, maxBackoff, 32, Some(j)));
        if 0 <= p.minBackoff && 0 <= p.maxBackoff && j.Drawn() {
          R.BackoffBounds(retries, p.minBackoff, maxBackoff, 32, j);
        }
      }
      var ok;
      ghost var a;
      ok, a := consumer.Enqueue(d.message.messageId, Queue(queue.name, true));
      made := [a];
    }

    /** Processes a message and settles it.  Whatever happens, the attempts
        follow a program that `NoLoss` accepts: a hand-off exactly if a retry was
        decided and its copy really enqueued, otherwise a settlement, by which a
        message is acked even if the enqueue of its retry has failed. */
    method ProcessMessage(d: Delivery, run: Run, j: R.Jitter)
      returns (ghost handOff: bool, ghost program: seq<BrokerCall>, ghost made: seq<Attempt>)
      modifies d, consumer`attempts, consumer`outages
      ensures Accepted(d.message, queue, handOff, program) && Left(program, made) == Some([])
      ensures consumer.attempts == old(consumer.attempts) + made
      ensures program == (if handOff then HandOff(d.message, queue, true, d.failed) else Settle(d.message, d.failed))
      ensures var retried := run.Raised? && policy.Some? && !run.failure.Expected?
                             && !Refused(policy.value, old(d.retries), run.failure);
              && d.failed == (old(d.failed) || (run.Raised? && policy.Some? && !retried))
              && d.retries == old(d.retries) + (if run.Raised? && policy.Some? && !run.failure.Expected? then 1 else 0)
              && var n := if retried then 1 else 0;
              && n < |made| && made[|made| - 1].answered
              && (forall i :: n <= i < |made| ==>
                    made[i].call == if d.failed then NackCall(d.message.redisId) else AckCall(d.message.redisId))
              && (retried ==> made[0].call == Send(d.message.messageId, Queue(queue.name, true)))
              && (handOff <==> retried && made[0].made)
    {
      hide Left, HandOff, Settle, Accepted, R.Decide, Refused;
      made := [];
      if run.Raised? && policy.Some? {
        var delay, notice;
        delay, notice, made := AfterProcessMessage(d, policy.value, run.failure, j);
      }
      ghost var settled := consumer.PostProcessMessage(d.message, d.failed);
      BothAccepted(d.message, queue, d.failed);
      handOff, program := false, Settle(d.message, d.failed);
      if made != [] {
        SendThenSettle(d.message, queue, true, d.failed, made[0], settled);
        handOff := made[0].made;
        if handOff {
          program := HandOff(d.message, queue, true, d.failed);
        }
        assert made + settled == [made[0]] + settled;
      } else {
        assert made + settled == settled;
      }
      made := made + settled;
    }
  }
}
