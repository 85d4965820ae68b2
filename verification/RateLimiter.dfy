/** The limiter objects: `_acquire`, `_release` and the `acquire` context
    manager around a caller's block. */
module RateLimiter {
  import opened Backend
  import opened Stub
  import C = ConcurrentLimiter
  import W = WindowLimiter

  datatype Exit = Normal | LimitExceeded | BlockRaised

  class ConcurrentRateLimiter {
    const backend: StubBackend
    const key: Key
    const limit: int
    const ttl: int

    /** Slots taken through this object and not given back. */
    ghost var slots: int

    ghost function Limiter(): C.Limiter {
      C.Limiter(key, limit, ttl)
    }

    constructor (backend: StubBackend, key: Key, limit: int, ttl: int)
      requires 1 <= limit
      ensures this.backend == backend && this.key == key && this.limit == limit && this.ttl == ttl && slots == 0
    {
      this.backend, this.key, this.limit, this.ttl, slots := backend, key, limit, ttl, 0;
    }

    /** One or two enabled events of the limiter's machine: `add`, and if that is
        refused `incr`, on the table that others have left by the time `middle`.
        There is a slot exactly if one of them grants it. */
    method TakeSlot(ghost client: nat) returns (ok: bool, ghost add: C.Event, ghost incr: C.Event, ghost middle: real)
      modifies this`slots, backend, backend.clock
      ensures slots == old(slots) + if ok then 1 else 0
      ensures add.TryAdd? && incr.TryIncr? && add.client == incr.client == client
      ensures add.put <= middle <= incr.get <= incr.put && middle <= backend.clock.now
      ensures incr.put <= backend.clock.now
      ensures var s := C.State(old(backend.db), map[], {}, 0.0, old(backend.clock.now));
              && C.Enabled(s, add)
              && if C.Result(Limiter(), s, add).ok
                 then ok && backend.db == C.Apply(Limiter(), s, add).db && backend.turns == old(backend.turns)
                 else
                   && backend.turns == old(backend.turns) + [Turn(old(backend.db), Last(backend.turns).to)]
                   && var s' := C.State(Last(backend.turns).to, map[], {client}, 0.0, middle);
                      C.Enabled(s', incr) && Outcome(ok, backend.db) == C.Result(Limiter(), s', incr)
    {
      ghost var a, b, c, d;
      ok, a, b := backend.Add(key, 1, ttl);
      add, middle, incr := C.TryAdd(client, a, b), b, C.TryIncr(client, b, b);
      if ok {
        slots := slots + 1;
        return;
      }
      backend.Yield();
      middle := backend.clock.now;
      ok, c, d := backend.Incr(key, 1, limit, ttl);
      incr := C.TryIncr(client, c, d);
      if ok {
        slots := slots + 1;
      }
    }

    /** One enabled release of the machine. */
    method GiveSlot(ghost client: nat) returns (ok: bool, ghost release: C.Event)
      modifies this`slots, backend`db, backend.clock
      ensures slots == old(slots) - 1
      ensures release.Release? && release.client == client && release.put == backend.clock.now
      ensures var s := C.State(old(backend.db), map[client := 0.0], {}, 0.0, old(backend.clock.now));
              C.Enabled(s, release) && Outcome(ok, backend.db) == C.Result(Limiter(), s, release)
    {
      ghost var get, put;
      ok, get, put := backend.Decr(key, 1, 0, ttl);
      slots, release := slots - 1, C.Release(client, get, put);
    }

    /** The context manager: a slot is given back exactly when one was taken,
        whether the block runs, raises, or is never entered, and whatever others
        do in their turns, the last of which is during the block. */
    method Acquire(raiseOnFailure: bool, blockRaises: bool, ghost client: nat)
      returns (acquired: bool, entered: bool, exit: Exit, ghost add: C.Event, ghost incr: C.Event,
               ghost release: C.Event, ghost middle: real, ghost left: real)
      modifies this`slots, backend, backend.clock
      ensures slots == old(slots)
      ensures entered <==> acquired || !raiseOnFailure
      ensures exit == if !entered then LimitExceeded else if blockRaises then BlockRaised else Normal
      ensures add.TryAdd? && incr.TryIncr? && release.Release? && add.client == incr.client == release.client == client
      ensures var s := C.State(old(backend.db), map[], {}, 0.0, old(backend.clock.now));
              var added := C.Result(Limiter(), s, add);
              && C.Enabled(s, add) && add.put <= middle
              && |backend.turns| == |old(backend.turns)| + (if added.ok then 0 else 1) + (if entered then 1 else 0)
              && old(backend.turns) <= backend.turns
              && (added.ok ==> acquired && Last(backend.turns).from == added.table)
              && (!added.ok ==>
                    var turn := backend.turns[|old(backend.turns)|];
                    var s' := C.State(turn.to, map[], {client}, 0.0, middle);
                    var increased := C.Result(Limiter(), s', incr);
                    && turn.from == old(backend.db) && C.Enabled(s', incr) && acquired == increased.ok
                    && (entered ==> Last(backend.turns).from == increased.table))
      ensures var s := C.State(Last(backend.turns).to, map[client := 0.0], {}, 0.0, left);
              if acquired then C.Enabled(s, release) && backend.db == C.Result(Limiter(), s, release).table
              else backend.db == Last(backend.turns).to
    {
      acquired, add, incr, middle := TakeSlot(client);
      release, left := C.Release(client, 0.0, 0.0), backend.clock.now;
      if raiseOnFailure && !acquired {
        entered, exit := false, LimitExceeded;
      } else {
        backend.Yield();
        left := backend.clock.now;
        entered, exit := true, if blockRaises then BlockRaised else Normal;
      }
      if acquired {
        var released;
        released, release := GiveSlot(client);
      }
    }
  }

  ghost function Last(turns: seq<Turn>): Turn {
    if turns == [] then Turn(map[], map[]) else turns[|turns| - 1]
  }

  /** The window limiter's `_acquire` on the stub: two enabled events of the
      limiter's machine, with a turn of others between them. */
  method TakeWindowSlot(l: W.Limiter, keys: WindowKeys, backend: StubBackend)
    returns (ok: bool, ghost zero: W.Event, ghost grant: W.Event, ghost middle: real)
    requires 0 < l.window == keys.window && keys.name == l.name && keys.clock == backend.clock
    modifies backend, backend.clock
    ensures zero.AddZero? && grant.Grant? && zero.second == grant.second && grant.put == backend.clock.now
    ensures ok ==> var key := Second(l.name, zero.second);
                   key in backend.db && backend.db[key].expiry == grant.put + l.window as real
    ensures var s := W.State(old(backend.db), [], old(backend.clock.now));
            && W.Enabled(l, s, zero) && zero.put <= middle
            && var left := W.Apply(l, s, zero).db;
               && backend.turns == old(backend.turns) + [Turn(left, Last(backend.turns).to)]
               && var s' := W.State(Last(backend.turns).to, [], middle);
                  W.Enabled(l, s', grant) && Outcome(ok, backend.db) == W.Result(l, s', grant)
  {
    var ks;
    ghost var second, a, b, get, last, at, put;
    ks, second := keys.GetKeys();
    var added;
    added, a, b := backend.Add(ks[0], 0, W.Ttl(l));
    backend.Yield();
    middle := backend.clock.now;
    ok, get, last, at, put := backend.IncrAndSum(ks[0], keys, 1, l.limit, W.Ttl(l));
    zero, grant := W.AddZero(second, a, b), W.Grant(second, get, last, at, put);
  }
}
