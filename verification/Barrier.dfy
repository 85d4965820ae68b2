/** Barriers, and the group callbacks that they release. */
module Barrier {
  import opened Keyspace
  import opened Backend
  import Stub

  // ----- any number of waits, in whatever order the parties reach the barrier

  /** The clock readings of one `wait`. */
  datatype Reading = Reading(get: real, put: real)

  function Waited(db: Table, key: Key, ttl: int, r: Reading): Outcome {
    Decr(db, key, 1, 1, ttl, r.get, r.put)
  }

  /** The table after the first `n` waits. */
  function Table(db: Backend.Table, key: Key, ttl: int, waits: seq<Reading>, n: nat): Backend.Table
    requires n <= |waits|
  {
    if n == 0 then db else Waited(Table(db, key, ttl, waits, n - 1), key, ttl, waits[n - 1]).table
  }

  /** Wait number `i` reports that the barrier is cleared. */
  predicate Cleared(db: Backend.Table, key: Key, ttl: int, waits: seq<Reading>, i: nat)
    requires i < |waits|
  {
    !Waited(Table(db, key, ttl, waits, i), key, ttl, waits[i]).ok
  }

  predicate LiveAt(db: Backend.Table, key: Key, ttl: int, waits: seq<Reading>, i: nat)
    requires i < |waits|
  {
    Fresh(Table(db, key, ttl, waits, i), key, waits[i].get)
  }

  ghost predicate Monotone(waits: seq<Reading>) {
    && (forall i :: 0 <= i < |waits| ==> waits[i].get <= waits[i].put)
    && (forall i, j :: 0 <= i < j < |waits| ==> waits[i].put <= waits[j].get)
  }

  /** While the key has been live at every wait, the counter is the number of
      parties still missing, stuck at one; once it has expired it stays so. */
  lemma {:induction false} Counts(db: Backend.Table, key: Key, ttl: int, waits: seq<Reading>, parties: nat, n: nat)
    requires 0 < parties && n < |waits| && Monotone(waits)
    requires key in db && db[key].value == parties
    ensures var t := Table(db, key, ttl, waits, n);
            if forall j :: 0 <= j < n ==> LiveAt(db, key, ttl, waits, j)
            then key in t && t[key].value == if n < parties then parties - n else 1
            else !Fresh(t, key, waits[n].get)
  {
    if n > 0 {
      Counts(db, key, ttl, waits, parties, n - 1);
      assert LiveAt(db, key, ttl, waits, n - 1) == Fresh(Table(db, key, ttl, waits, n - 1), key, waits[n - 1].get);
    }
  }

  /** A wait reports "cleared" exactly from the last party on, or from the
      moment that the barrier's key has expired. */
  lemma ClearedExactly(db: Backend.Table, key: Key, ttl: int, waits: seq<Reading>, parties: nat, i: nat)
    requires 0 < parties && i < |waits| && Monotone(waits)
    requires key in db && db[key].value == parties
    ensures Cleared(db, key, ttl, waits, i) <==>
            parties - 1 <= i || exists j :: 0 <= j <= i && !LiveAt(db, key, ttl, waits, j)
  {
    Counts(db, key, ttl, waits, parties, i);
    assert LiveAt(db, key, ttl, waits, i) == Fresh(Table(db, key, ttl, waits, i), key, waits[i].get);
  }

  // ----- the middleware

  datatype Completion = Completion(uuid: Option<string>, callbacks: seq<nat>)

  class GroupCallbacks {
    const backend: Stub.StubBackend
    const ttl: int

    /** The callbacks enqueued so far. */
    var enqueued: seq<nat>

    constructor (backend: Stub.StubBackend, ttl: int)
      ensures this.backend == backend && this.ttl == ttl && enqueued == []
    {
      this.backend, this.ttl, enqueued := backend, ttl, [];
    }

    method AfterProcessMessage(message: Completion, failed: bool) returns (ghost r: Reading)
      modifies this`enqueued, backend, backend.clock
      ensures old(backend.clock.now) <= r.get <= r.put <= backend.clock.now
      ensures failed || message.uuid.None? || message.uuid.value == "" || message.callbacks == [] ==>
                enqueued == old(enqueued) && backend.db == old(backend.db)
      ensures !failed && message.uuid.Some? && message.uuid.value != "" && message.callbacks != [] ==>
                var o := Waited(old(backend.db), Named(message.uuid.value), ttl, r);
                && backend.db == o.table
                && enqueued == if o.ok then old(enqueued) else old(enqueued) + message.callbacks
    {
      r := Reading(backend.clock.now, backend.clock.now);
      if !failed && message.uuid.Some? && message.uuid.value != "" && message.callbacks != [] {
        ghost var get, put;
        var ok;
        ok, get, put := backend.Decr(Named(message.uuid.value), 1, 1, ttl);
        r := Reading(get, put);
        if !ok {
          for i := 0 to |message.callbacks|
            modifies this`enqueued
            invariant enqueued == old(enqueued) + message.callbacks[..i]
          {
            enqueued := enqueued + [message.callbacks[i]];
          }
          assert message.callbacks[..|message.callbacks|] == message.callbacks;
        }
      }
    }
  }

  // ----- one group

  function Repeat(callbacks: seq<nat>, n: nat): seq<nat> {
    if n == 0 then [] else Repeat(callbacks, n - 1) + callbacks
  }

  /** What the middleware has enqueued after `n` successful members. */
  function Enqueued(db: Backend.Table, key: Key, ttl: int, waits: seq<Reading>, callbacks: seq<nat>, n: nat): seq<nat>
    requires n <= |waits|
  {
    if n == 0 then []
    else
      Enqueued(db, key, ttl, waits, callbacks, n - 1)
      + if Cleared(db, key, ttl, waits, n - 1) then callbacks else []
  }

  /** With the barrier live, nothing is enqueued before the last of the group's
      members succeeds, then each callback once, and once more for every
      success beyond that: a redelivered member repeats the callbacks. */
  lemma {:induction false} CallbacksPerSuccess(
    db: Backend.Table, key: Key, ttl: int, waits: seq<Reading>, callbacks: seq<nat>, members: nat, n: nat)
    requires 0 < members && n <= |waits| && Monotone(waits)
    requires key in db && db[key].value == members
    requires forall j :: 0 <= j < n && j < members - 1 ==> LiveAt(db, key, ttl, waits, j)
    ensures Enqueued(db, key, ttl, waits, callbacks, n)
            == Repeat(callbacks, if n < members then 0 else n - members + 1)
  {
    if n > 0 {
      CallbacksPerSuccess(db, key, ttl, waits, callbacks, members, n - 1);
      ClearedExactly(db, key, ttl, waits, members, n - 1);
    }
  }

  /** So if each member succeeds exactly once, each callback is enqueued exactly
      once, and after all of them. */
  lemma CallbacksOnce(db: Backend.Table, key: Key, ttl: int, waits: seq<Reading>, callbacks: seq<nat>, members: nat)
    requires 0 < members == |waits| && Monotone(waits)
    requires key in db && db[key].value == members
    requires forall j :: 0 <= j < members - 1 ==> LiveAt(db, key, ttl, waits, j)
    ensures Enqueued(db, key, ttl, waits, callbacks, members) == callbacks
    ensures forall n :: 0 <= n < members ==> Enqueued(db, key, ttl, waits, callbacks, n) == []
  {
    CallbacksPerSuccess(db, key, ttl, waits, callbacks, members, members);
    assert Repeat(callbacks, 1) == Repeat(callbacks, 0) + callbacks == callbacks;
    forall n | 0 <= n < members ensures Enqueued(db, key, ttl, waits, callbacks, n) == [] {
      CallbacksPerSuccess(db, key, ttl, waits, callbacks, members, n);
    }
  }

  // ----- when the barrier stays live

  /** The last time that the counter was written before wait number `i`. */
  function LastPut(created: real, waits: seq<Reading>, i: nat): real
    requires i <= |waits|
  {
    if i == 0 then created else waits[i - 1].put
  }

  lemma {:induction false} ExpiresAfter(
    db: Backend.Table, key: Key, ttl: int, waits: seq<Reading>, parties: nat, created: real, n: nat)
    requires n < parties && n < |waits| && Monotone(waits)
    requires key in db && db[key] == Cell(parties, created + Seconds(ttl))
    requires forall j :: 0 <= j < n ==> LiveAt(db, key, ttl, waits, j)
    ensures var t := Table(db, key, ttl, waits, n);
            key in t && t[key] == Cell(parties - n, LastPut(created, waits, n) + Seconds(ttl))
  {
    if n > 0 {
      ExpiresAfter(db, key, ttl, waits, parties, created, n - 1);
      assert LiveAt(db, key, ttl, waits, n - 1);
    }
  }

  lemma LiveNext(
    db: Backend.Table, key: Key, ttl: int, waits: seq<Reading>, parties: nat, created: real, n: nat)
    requires n < parties && n < |waits| && Monotone(waits) && 0.0 <= waits[n].get
    requires key in db && db[key] == Cell(parties, created + Seconds(ttl))
    requires forall j :: 0 <= j < n ==> LiveAt(db, key, ttl, waits, j)
    ensures LiveAt(db, key, ttl, waits, n) <==> waits[n].get < LastPut(created, waits, n) + Seconds(ttl)
  {
    ExpiresAfter(db, key, ttl, waits, parties, created, n);
  }

  ghost predicate Prompt(ttl: int, waits: seq<Reading>, created: real, n: nat)
    requires n <= |waits|
  {
    forall j :: 0 <= j < n ==> waits[j].get < LastPut(created, waits, j) + Seconds(ttl)
  }

  /** The barrier is live at its first waits exactly if each of them comes
      within a time-to-live of the one before. */
  lemma {:induction false} LiveExactly(
    db: Backend.Table, key: Key, ttl: int, waits: seq<Reading>, parties: nat, created: real, n: nat)
    requires n <= parties && n <= |waits| && Monotone(waits)
    requires forall j :: 0 <= j < |waits| ==> 0.0 <= waits[j].get
    requires key in db && db[key] == Cell(parties, created + Seconds(ttl))
    ensures (forall j :: 0 <= j < n ==> LiveAt(db, key, ttl, waits, j)) <==> Prompt(ttl, waits, created, n)
  {
    hide LiveAt, Seconds, LastPut, Monotone;
    if n > 0 {
      LiveExactly(db, key, ttl, waits, parties, created, n - 1);
      if forall j :: 0 <= j < n - 1 ==> LiveAt(db, key, ttl, waits, j) {
        LiveNext(db, key, ttl, waits, parties, created, n - 1);
      }
    }
  }

  /** A group from creation to completion: under a new uuid, if its members
      succeed once each and each within a time-to-live of the one before, then
      the callbacks are enqueued once, at the last of them. */
  lemma GroupCompletes(db: Backend.Table, key: Key, ttl: int, members: nat, get: real, created: real,
                       waits: seq<Reading>, callbacks: seq<nat>)
    requires 0 < members == |waits| && Monotone(waits) && 0.0 <= get <= created <= waits[0].get
    requires !Fresh(db, key, get)
    requires Prompt(ttl, waits, created, members - 1)
    ensures var t := Add(db, key, members, ttl, get, created).table;
            && Enqueued(t, key, ttl, waits, callbacks, members) == callbacks
            && forall n :: 0 <= n < members ==> Enqueued(t, key, ttl, waits, callbacks, n) == []
  {
    var t := Add(db, key, members, ttl, get, created).table;
    LiveExactly(t, key, ttl, waits, members, created, members - 1);
    CallbacksOnce(t, key, ttl, waits, callbacks, members);
  }
}
