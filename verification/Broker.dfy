/** Queue names, and how the Redis broker enqueues a message. */
module QueueNames {
  import opened Keyspace

  const DELAYED := ".DQ"
  const DEAD := ".XQ"

  predicate Ends(name: string, suffix: string) {
    |suffix| <= |name| && name[|name| - |suffix|..] == suffix
  }

  function Stem(name: string): string
    requires 3 <= |name|
  {
    name[..|name| - 3]
  }

  function QName(name: string): string {
    if Ends(name, DELAYED) || Ends(name, DEAD) then Stem(name) else name
  }

  function DqName(name: string): string {
    if Ends(name, DELAYED) then name
    else (if Ends(name, DEAD) then Stem(name) else name) + DELAYED
  }

  function XqName(name: string): string {
    if Ends(name, DEAD) then name
    else (if Ends(name, DELAYED) then Stem(name) else name) + DEAD
  }

  /** The dispatch script's own notion of a canonical name. */
  function Canonical(name: string): string {
    if Ends(name, DELAYED) then Stem(name) else name
  }

  lemma Suffixed(name: string, suffix: string)
    requires |suffix| == 3
    ensures Ends(name + suffix, suffix) && Stem(name + suffix) == name
    ensures forall other :: |other| == 3 && Ends(name + suffix, other) ==> other == suffix
  {
    assert (name + suffix)[|name|..] == suffix;
  }

  /** A delay queue belongs to the queue it was made for, has the same dead
      letters, and is its own delay queue. */
  lemma DelayQueueBelongs(name: string)
    ensures DqName(DqName(name)) == DqName(name)
    ensures QName(DqName(name)) == QName(name)
    ensures XqName(DqName(name)) == XqName(name)
  {
    var stem := if Ends(name, DELAYED) || Ends(name, DEAD) then Stem(name) else name;
    Suffixed(stem, DELAYED);
    if Ends(name, DELAYED) || Ends(name, DEAD) {
      assert name == stem + name[|stem|..];
    }
  }

  /** The script and the client agree on where dead letters go, except for a
      queue that is itself named like a dead-letter queue. */
  lemma DeadLettersAgree(name: string)
    ensures Canonical(name) + DEAD == XqName(name) <==> !Ends(name, DEAD)
  {
    if Ends(name, DEAD) {
      assert !Ends(name, DELAYED);
    }
  }

  /** The names of a plain queue's relatives, spelled out. */
  lemma NamesSpelled(name: string)
    requires !Ends(name, ".DQ") && !Ends(name, ".XQ")
    ensures DqName(name) == name + ".DQ" && XqName(name) == name + ".XQ"
    ensures QName(name) == QName(name + ".DQ") == QName(name + ".XQ") == Canonical(name + ".DQ") == name
    ensures DqName(name + ".XQ") == name + ".DQ" && XqName(name + ".DQ") == name + ".XQ"
  {
    Suffixed(name, ".DQ");
    Suffixed(name, ".XQ");
  }

  // ----- structured keys

  function FullName(q: Queue): string { q.name + if q.delayed then DELAYED else "" }

  function Parse(name: string): Queue { Queue(Canonical(name), Ends(name, DELAYED)) }

  /** Structured keys lose nothing: every Redis queue name is one structured
      key, and a key is the only one with its name unless a canonical name
      itself ends in ".DQ". */
  lemma KeysAreNames(name: string, q: Queue)
    ensures FullName(Parse(name)) == name
    ensures Parse(FullName(q)) == q <==> q.delayed || !Ends(q.name, DELAYED)
  {
    if Ends(name, DELAYED) {
      assert name == Stem(name) + DELAYED;
    }
    Suffixed(q.name, DELAYED);
    assert q.name + "" == q.name;
  }
}

module Brokers {
  import opened Keyspace
  import opened Lifecycle
  import opened QueueNames
  import Dispatch
  import Consumers
  import NoLoss

  /** The part of a message that enqueueing reads and writes. */
  datatype Envelope = Envelope(queueName: string, messageId: nat, redisId: Option<Id>, eta: Option<int>)

  /** What is stored when `m` is enqueued at time `now` under a new id. */
  function Sealed(m: Envelope, delay: Option<int>, id: Id, now: nat): Envelope {
    var labelled := m.(redisId := Some(id));
    if delay.None? then labelled
    else labelled.(queueName := DqName(m.queueName), eta := Some(now + delay.value))
  }

  /** What a consumer thread enqueues once the eta of `m` has passed. */
  function Released(m: Envelope): Envelope {
    m.(queueName := QName(m.queueName), eta := None)
  }

  /** A delayed message that is released is stored as it would have been without
      the delay, exactly if it was sent to a canonical queue. */
  lemma DelayRoundTrip(m: Envelope, delay: int, first: Id, second: Id, sent: nat, released: nat)
    ensures Sealed(Released(Sealed(m, Some(delay), first, sent)), None, second, released)
            == Sealed(m.(eta := None), None, second, released)
            <==> !Ends(m.queueName, DELAYED) && !Ends(m.queueName, DEAD)
  {
    DelayQueueBelongs(m.queueName);
  }

  function Enqueues(c: Consumers.Config, sealed: Envelope, id: Id, now: nat, maintain: bool): Call {
    Consumers.Request(c, Parse(sealed.queueName), Enqueue(id, Encoded(Message(sealed.messageId, id))), now, maintain)
  }

  class RedisBroker {
    const script: Dispatch.Script
    const config: Consumers.Config

    constructor (script: Dispatch.Script, config: Consumers.Config)
      ensures this.script == script && this.config == config
    {
      this.script, this.config := script, config;
    }

    /** Stores a copy of the message under the new id `id`, on the delay queue
        if there is a delay.  `millis` and `now` are its two clock readings. */
    method Enqueue(m: Envelope, delay: Option<int>, id: Id, millis: nat, now: nat, maintain: bool)
      returns (sealed: Envelope)
      requires script.Valid() && id !in script.st && 0 < config.maxUnpack
      modifies script
      ensures script.Valid()
      ensures sealed == Sealed(m, delay, id, millis)
      ensures sealed.redisId == Some(id) && sealed.messageId == m.messageId
      ensures delay.None? ==> sealed.queueName == m.queueName && sealed.eta == m.eta
      ensures delay.Some? ==> sealed.queueName == DqName(m.queueName)
      ensures FullName(Parse(sealed.queueName)) == sealed.queueName
      ensures var qd := At(script.queues, Parse(sealed.queueName));
              && qd.list != [] && qd.list[|qd.list| - 1] == id
              && id in qd.msgs && qd.msgs[id] == Encoded(Message(m.messageId, id))
      ensures Step(old(script.System()), Enqueues(config, sealed, id, now, maintain), script.System())
      ensures StatusOf(script.st, id) == Queued(Parse(sealed.queueName))
      ensures delay.Some? ==> sealed.eta == Some(millis + delay.value) && Parse(sealed.queueName).delayed
      ensures NoLoss.Sends(Enqueues(config, sealed, id, now, maintain), m.messageId)
    {
      sealed := m.(redisId := Some(id));
      var queueName := m.queueName;
      if delay.Some? {
        DelayedName(queueName);
        queueName := DqName(queueName);
        sealed := sealed.(queueName := queueName, eta := Some(millis + delay.value));
      }
      ghost var s := script.System();
      var call := Enqueues(config, sealed, id, now, maintain);
      var reply := script.Dispatch(call);
      NoLoss.StepEnqueues(s, call, script.System());
    }
  }

  lemma DelayedName(name: string)
    ensures Ends(DqName(name), DELAYED)
  {
    if !Ends(name, DELAYED) {
      Suffixed(if Ends(name, DEAD) then Stem(name) else name, DELAYED);
    }
  }
}
