/** The in-memory backend: each method runs under the mutex and reads the clock
    as it goes. */
module Stub {
  import opened Keyspace
  import opened Backend

  class Clock {
    var now: real

    constructor (now: real)
      ensures this.now == now
    {
      this.now := now;
    }

    method Monotonic() returns (t: real)
      modifies this
      ensures old(now) <= t && now == t
    {
      t := *;
      if t < now {
        t := now;
      }
      now := t;
    }
  }

  /** `WindowRateLimiter._get_keys`, which reads the clock. */
  class WindowKeys {
    const name: string
    const window: nat
    const clock: Clock

    constructor (name: string, window: nat, clock: Clock)
      ensures this.name == name && this.window == window && this.clock == clock
    {
      this.name, this.window, this.clock := name, window, clock;
    }

    method GetKeys() returns (keys: seq<Key>, ghost second: int)
      modifies clock
      ensures second == clock.now.Floor && old(clock.now) <= clock.now
      ensures keys == Keys(name, second, window)
    {
      var t := clock.Monotonic();
      var timestamp := t.Floor;
      second, keys := timestamp, seq(window, i => Second(name, timestamp - i));
    }
  }

  /** A turn of other threads: the table that they were left, and the one that
      they left. */
  datatype Turn = Turn(from: Table, to: Table)

  class StubBackend {
    var db: Table
    const clock: Clock

    /** The turns that other threads have had between critical sections. */
    ghost var turns: seq<Turn>

    constructor (clock: Clock)
      ensures db == map[] && this.clock == clock && turns == []
    {
      db, this.clock, turns := map[], clock, [];
    }

    /** The mutex is free: other threads use the backend, and time passes. */
    method Yield()
      modifies this, clock
      ensures turns == old(turns) + [Turn(old(db), db)] && old(clock.now) <= clock.now
    {
      ghost var from := db;
      db := *;
      var t := clock.Monotonic();
      turns := turns + [Turn(from, db)];
    }

    /** `_get`: a zero expiration counts as no entry, and then the clock is not read. */
    method Read(key: Key) returns (value: Option<int>, ghost at: real)
      modifies clock
      ensures value == Get(db, key, at) && old(clock.now) <= at == clock.now
      ensures value.Some? <==> key in db && db[key].expiry != 0.0 && at < db[key].expiry
      ensures value.Some? ==> value.value == db[key].value
    {
      at, value := clock.now, None;
      if key in db && db[key].expiry != 0.0 {
        var t := clock.Monotonic();
        at := t;
        if t < db[key].expiry {
          value := Some(db[key].value);
        }
      }
    }

    method Write(key: Key, value: int, ttl: int) returns (ok: bool, ghost at: real)
      modifies this`db, clock
      ensures ok && db == Stored(old(db), key, value, ttl, at) && old(clock.now) <= at == clock.now
      ensures db == old(db)[key := Cell(value, at + ttl as real / 1000.0)]
    {
      var t := clock.Monotonic();
      db := db[key := Cell(value, t + Seconds(ttl))];
      at, ok := t, true;
    }

    method Add(key: Key, value: int, ttl: int) returns (ok: bool, ghost get: real, ghost put: real)
      modifies this`db, clock
      ensures Outcome(ok, db) == Backend.Add(old(db), key, value, ttl, get, put)
      ensures ok <==> !(key in old(db) && old(db)[key].expiry != 0.0 && get < old(db)[key].expiry)
      ensures db == if ok then old(db)[key := Cell(value, put + ttl as real / 1000.0)] else old(db)
      ensures old(clock.now) <= get <= put == clock.now
    {
      var found;
      found, get := Read(key);
      put := get;
      if found.Some? {
        return false, get, put;
      }
      ok, put := Write(key, value, ttl);
    }

    method Incr(key: Key, amount: int, maximum: int, ttl: int) returns (ok: bool, ghost get: real, ghost put: real)
      modifies this`db, clock
      ensures Outcome(ok, db) == Backend.Incr(old(db), key, amount, maximum, ttl, get, put)
      ensures var live := key in old(db) && old(db)[key].expiry != 0.0 && get < old(db)[key].expiry;
              var value := (if live then old(db)[key].value else 0) + amount;
              && (ok <==> value <= maximum)
              && db == if ok then old(db)[key := Cell(value, put + ttl as real / 1000.0)] else old(db)
      ensures old(clock.now) <= get <= put == clock.now
    {
      var found;
      found, get := Read(key);
      put := get;
      var value := (if found.Some? then found.value else 0) + amount;
      if value > maximum {
        return false, get, put;
      }
      ok, put := Write(key, value, ttl);
    }

    method Decr(key: Key, amount: int, minimum: int, ttl: int) returns (ok: bool, ghost get: real, ghost put: real)
      modifies this`db, clock
      ensures Outcome(ok, db) == Backend.Decr(old(db), key, amount, minimum, ttl, get, put)
      ensures var live := key in old(db) && old(db)[key].expiry != 0.0 && get < old(db)[key].expiry;
              var value := (if live then old(db)[key].value else 0) - amount;
              && (ok <==> value >= minimum)
              && db == if ok then old(db)[key := Cell(value, put + ttl as real / 1000.0)] else old(db)
      ensures old(clock.now) <= get <= put == clock.now
    {
      var found;
      found, get := Read(key);
      put := get;
      var value := (if found.Some? then found.value else 0) - amount;
      if value < minimum {
        return false, get, put;
      }
      ok, put := Write(key, value, ttl);
    }

    /** The `sum` over the keys, each read at its own time. */
    method Total(keys: seq<Key>) returns (total: int, ghost at: seq<real>)
      modifies clock
      ensures |at| == |keys| && total == Sum(db, keys, at)
      ensures Ordered(old(clock.now), at, clock.now)
    {
      hide Ordered, Sum;
      total, at := 0, [];
      NoReadings(db, clock.now);
      for i := 0 to |keys|
        invariant |at| == i && Ordered(old(clock.now), at, clock.now)
        invariant total == Sum(db, keys[..i], at)
      {
        var found;
        ghost var t, last := 0.0, clock.now;
        found, t := Read(keys[i]);
        OneMoreReading(old(clock.now), at, last, t);
        OneMoreTerm(db, keys, i, at, t);
        at := at + [t];
        total := total + if found.Some? then found.value else 0;
      }
      assert keys[..|keys|] == keys;
    }

    /** The second critical section of `incr_and_sum`, which computes the keys
        once more; the first is `Add` of 0. */
    method IncrAndSum(key: Key, keys: WindowKeys, amount: int, maximum: int, ttl: int)
      returns (ok: bool, ghost get: real, ghost last: int, ghost at: seq<real>, ghost put: real)
      requires keys.clock == clock
      modifies this`db, clock
      ensures |at| == keys.window && get.Floor <= last <= put.Floor
      ensures forall i :: 0 <= i < |at| ==> last as real <= at[i]
      ensures Outcome(ok, db)
              == Backend.IncrAndSum(old(db), key, Keys(keys.name, last, keys.window), amount, maximum, ttl,
                                    get, at, put)
      ensures old(clock.now) <= get && Ordered(get, at, put) && put == clock.now
      ensures var live := key in old(db) && old(db)[key].expiry != 0.0 && get < old(db)[key].expiry;
              var value := (if live then old(db)[key].value else 0) + amount;
              && (ok <==> value <= maximum
                          && amount + Sum(old(db), Keys(keys.name, last, keys.window), at) <= maximum)
              && db == if ok then old(db)[key := Cell(value, put + ttl as real / 1000.0)] else old(db)
    {
      var found;
      found, get := Read(key);
      last, at, put := get.Floor, seq(keys.window, _ => get), get;
      var value := (if found.Some? then found.value else 0) + amount;
      if value > maximum {
        return false, get, last, at, put;
      }
      var ks, values;
      ks, last := keys.GetKeys();
      values, at := Total(ks);
      put := clock.now;
      if amount + values > maximum {
        return false, get, last, at, put;
      }
      ok, put := Write(key, value, ttl);
    }
  }
}
