/** The Redis backend's retry loops, run against a server that other clients
    write to between any two commands. */
module Redis {
  import opened Backend
  import opened Keyspace
  import O = Optimistic

  ghost predicate Snapshot(s: O.Sys, keys: set<Key>, seen: map<Key, O.Seen>) {
    && seen.Keys == keys
    && forall k :: k in seen ==> seen[k] == O.Seen(O.Version(s, k), Fresh(s.db, k, s.now))
  }

  ghost function LiveKeys(s: O.Sys): set<Key> {
    set k | k in s.db && Fresh(s.db, k, s.now)
  }

  /** Commands of other clients between two moments. */
  ghost predicate Elapsed(s: O.Sys, others: nat, s': O.Sys, others': nat) {
    && O.Unmoved(s, s') && others' <= others
    && (others' == others ==> s'.db == s.db && s'.versions == s.versions)
  }

  lemma ElapsedTwice(s: O.Sys, n: nat, s': O.Sys, n': nat, s'': O.Sys, n'': nat)
    requires Elapsed(s, n, s', n') && Elapsed(s', n', s'', n'')
    ensures Elapsed(s, n, s'', n'')
  {
  }

  /** A failed EXEC has used up a write of another client, or a live key. */
  lemma Progress(start: O.Sys, n: nat, watched: O.Sys, n': nat, last: O.Sys, n'': nat,
                 keys: set<Key>, seen: map<Key, O.Seen>)
    requires Elapsed(start, n, watched, n') && Elapsed(watched, n', last, n'')
    requires Snapshot(watched, keys, seen) && !O.Intact(last, seen)
    ensures n'' < n || (n'' == n && LiveKeys(last) < LiveKeys(start))
  {
    if n'' == n {
      var k :| k in seen && !(seen[k].version == O.Version(last, k) && (seen[k].live ==> Fresh(last.db, k, last.now)));
      assert k in LiveKeys(start) && k !in LiveKeys(last);
    }
  }

  class Server {
    var db: Table
    var versions: map<Key, nat>
    var now: real

    /** How many writes other clients still make: by the count of failures in
        `LockFreedom`, a finite number of calls makes finitely many. */
    var others: nat

    /** How often others have had a turn, and the table and time it left. */
    ghost var turns: nat
    ghost var last: (Table, real)

    /** `db` is the table at `at`, the end of the last turn, which came after the
        first `earlier` ones. */
    ghost predicate LastMoment(earlier: nat, db: Table, at: real)
      reads `turns, `last
    {
      earlier < turns && last == (db, at)
    }

    ghost function View(): O.Sys
      reads `db, `versions, `now
    {
      O.Sys(db, versions, now, map[])
    }

    constructor (others: nat)
      ensures db == map[] && versions == map[] && this.others == others
    {
      db, versions, now, this.others, turns, last := map[], map[], 0.0, others, 0, (map[], 0.0);
    }

    method Bump(key: Key)
      modifies this`versions
      ensures versions == old(versions)[key := O.Version(old(View()), key) + 1]
    {
      versions := versions[key := if key in versions then versions[key] + 1 else 1];
    }

    /** Time passes and other clients write. */
    method Elapse()
      modifies this
      ensures Elapsed(old(View()), old(others), View(), others)
      ensures old(now) <= now && LastMoment(old(turns), db, now)
    {
      var later: real := *;
      if now < later {
        now := later;
      }
      var writes: nat := *;
      while 0 < writes && 0 < others
        invariant Elapsed(old(View()), old(others), View(), others) && turns == old(turns)
      {
        var key: Key, cell: Cell := *, *;
        Bump(key);
        db, others, writes := db[key := cell], others - 1, writes - 1;
      }
      turns, last := turns + 1, (db, now);
    }

    method Watch(keys: set<Key>) returns (seen: map<Key, O.Seen>)
      ensures Snapshot(View(), keys, seen)
    {
      seen := map k | k in keys :: O.Seen(if k in versions then versions[k] else 0, Fresh(db, k, now));
    }

    method Get(key: Key) returns (value: Option<int>)
      ensures value == Backend.Get(db, key, now)
      ensures Value(db, key, now) == if value.Some? then value.value else 0
    {
      value := Backend.Get(db, key, now);
    }

    method MGet(keys: seq<Key>) returns (values: seq<Option<int>>)
      ensures |values| == |keys| && forall i :: 0 <= i < |keys| ==> values[i] == Backend.Get(db, keys[i], now)
    {
      var db, now := db, now;
      values := seq(|keys|, i requires 0 <= i < |keys| => Backend.Get(db, keys[i], now));
    }

    /** MULTI, SET and EXEC; false is the WatchError. */
    method Execute(seen: map<Key, O.Seen>, key: Key, value: int, ttl: int) returns (ok: bool)
      modifies this`db, this`versions
      ensures ok == old(O.Intact(View(), seen))
      ensures ok ==> db == Stored(old(db), key, value, ttl, now)
      ensures !ok ==> db == old(db) && versions == old(versions)
    {
      ok := O.Intact(O.Sys(db, versions, now, map[]), seen);
      if ok {
        Bump(key);
        db := Stored(db, key, value, ttl, now);
      }
    }
  }

  method Total(values: seq<Option<int>>, ghost db: Table, ghost keys: seq<Key>, ghost now: real) returns (total: int)
    requires |values| == |keys|
    requires forall i :: 0 <= i < |keys| ==> values[i] == Backend.Get(db, keys[i], now)
    ensures total == O.SumNow(db, keys, now)
  {
    total := 0;
    for i := 0 to |values|
      invariant total == O.SumNow(db, keys[..i], now)
    {
      SumOneMore(db, keys, i, now);
      total := total + if values[i].Some? then values[i].value else 0;
    }
    assert keys[..|values|] == keys;
  }

  lemma SumOneMore(db: Table, keys: seq<Key>, i: nat, now: real)
    requires i < |keys|
    ensures O.SumNow(db, keys[..i + 1], now) == O.SumNow(db, keys[..i], now) + Value(db, keys[i], now)
  {
    assert keys[..i + 1][..i] == keys[..i];
    assert seq(i + 1, _ => now)[..i] == seq(i, _ => now);
  }

  /** The `keys` argument: what it returns may differ from call to call. */
  class KeySource {
    ghost var calls: nat
    ghost var latest: seq<Key>
    ghost var previous: seq<Key>

    constructor ()
      ensures calls == 0
    {
      calls, latest, previous := 0, [], [];
    }

    /** The last lists, given after the first `earlier` calls: two different
        calls if an attempt came as far as the sum. */
    ghost predicate Gave(earlier: nat, both: bool, watched: seq<Key>, summed: seq<Key>)
      reads this
    {
      && earlier < calls && latest == summed
      && (both ==> earlier + 1 < calls && previous == watched)
    }

    method Keys() returns (keys: seq<Key>)
      modifies this
      ensures calls == old(calls) + 1 && latest == keys && previous == old(latest)
    {
      keys := *;
      calls, latest, previous := calls + 1, keys, latest;
    }
  }

  class RedisBackend {
    const server: Server

    constructor (server: Server)
      ensures this.server == server
    {
      this.server := server;
    }

    /** WATCH, then GET with a default of zero, each after others had a turn. */
    method WatchAndGet(key: Key, watch: set<Key>)
      returns (seen: map<Key, O.Seen>, stored: int, ghost watched: O.Sys, ghost others: nat)
      modifies server
      ensures Elapsed(old(server.View()), old(server.others), watched, others)
      ensures Elapsed(watched, others, server.View(), server.others)
      ensures Snapshot(watched, watch, seen) && stored == Value(server.db, key, server.now)
      ensures server.LastMoment(old(server.turns), server.db, server.now)
    {
      hide Elapsed, Snapshot, Value, Backend.Get;
      server.Elapse();
      seen := server.Watch(watch);
      watched, others := server.View(), server.others;
      server.Elapse();
      var found := server.Get(key);
      stored := if found.Some? then found.value else 0;
    }

    /** MGET and the sum, after others had a turn. */
    method SumOf(keys: seq<Key>) returns (total: int)
      modifies server
      ensures Elapsed(old(server.View()), old(server.others), server.View(), server.others)
      ensures total == O.SumNow(server.db, keys, server.now)
      ensures server.LastMoment(old(server.turns), server.db, server.now)
    {
      hide Elapsed, O.SumNow;
      server.Elapse();
      var values := server.MGet(keys);
      total := Total(values, server.db, keys, server.now);
    }

    /** The result is that of the atomic operation on the server's table `db` at
        its last moment `at` during the call; a grant is the table's last change. */
    method Incr(key: Key, amount: int, maximum: int, ttl: int) returns (ok: bool, ghost db: Table, ghost at: real)
      modifies server
      ensures IsAtomic(O.Op(O.Incr, key, amount, maximum, ttl), ok, db, at, server.db)
      ensures server.LastMoment(old(server.turns), db, at) && (!ok ==> db == server.db)
    {
      hide Elapsed, Snapshot, LiveKeys, Value, Fresh, Stored, Backend.Get, IsAtomic;
      hide O.Intact, O.SumNow, O.Version;
      while true
        invariant old(server.turns) <= server.turns
        decreases server.others, LiveKeys(server.View())
      {
        ghost var start, n, w, n' := server.View(), server.others, server.View(), server.others;
        var seen, stored;
        seen, stored, w, n' := WatchAndGet(key, {key});
        var value := stored + amount;
        db, at := server.db, server.now;
        IncrDecides(key, amount, maximum, ttl, db, at);
        if value > maximum {
          return false, db, at;
        }
        ghost var read, r := server.View(), server.others;
        server.Elapse();
        db, at := server.db, server.now;
        IncrDecides(key, amount, maximum, ttl, db, at);
        OneRead(start, n, w, n', read, r, server.View(), server.others, {key}, seen, key);
        ok := server.Execute(seen, key, value, ttl);
        if ok {
          return;
        }
      }
    }

    method Decr(key: Key, amount: int, minimum: int, ttl: int) returns (ok: bool, ghost db: Table, ghost at: real)
      modifies server
      ensures IsAtomic(O.Op(O.Decr, key, amount, minimum, ttl), ok, db, at, server.db)
      ensures server.LastMoment(old(server.turns), db, at) && (!ok ==> db == server.db)
    {
      hide Elapsed, Snapshot, LiveKeys, Value, Fresh, Stored, Backend.Get, IsAtomic;
      hide O.Intact, O.SumNow, O.Version;
      while true
        invariant old(server.turns) <= server.turns
        decreases server.others, LiveKeys(server.View())
      {
        ghost var start, n, w, n' := server.View(), server.others, server.View(), server.others;
        var seen, stored;
        seen, stored, w, n' := WatchAndGet(key, {key});
        var value := stored - amount;
        db, at := server.db, server.now;
        DecrDecides(key, amount, minimum, ttl, db, at);
        if value < minimum {
          return false, db, at;
        }
        ghost var read, r := server.View(), server.others;
        server.Elapse();
        db, at := server.db, server.now;
        DecrDecides(key, amount, minimum, ttl, db, at);
        OneRead(start, n, w, n', read, r, server.View(), server.others, {key}, seen, key);
        ok := server.Execute(seen, key, value, ttl);
        if ok {
          return;
        }
      }
    }

    /** One attempt at a bounded sum, None being a WatchError. */
    method TryIncrAndSum(key: Key, keys: KeySource, amount: int, maximum: int, ttl: int)
      returns (r: Option<bool>, ghost watched: seq<Key>, ghost summed: seq<Key>, ghost db: Table, ghost at: real)
      modifies server, keys
      ensures keys.Gave(old(keys.calls), r == Some(true), watched, summed)
      ensures server.LastMoment(old(server.turns), db, at)
      ensures r == Some(false) ==>
                db == server.db
                && IsAtomic(O.Op(O.SumUp(watched, summed), key, amount, maximum, ttl), false, db, at, db)
      ensures r == Some(true) ==>
                IsGranted(O.Op(O.SumUp(watched, summed), key, amount, maximum, ttl), db, at, server.db)
      ensures r.None? ==> server.others < old(server.others)
                          || (server.others == old(server.others)
                              && LiveKeys(server.View()) < old(LiveKeys(server.View())))
    {
      hide Elapsed, Snapshot, LiveKeys, Value, Fresh, Stored, Backend.Get, IsAtomic, IsGranted;
      hide O.Watched, O.WatchSet, O.Intact, O.SumNow, O.Version, O.Covered;
      var list := keys.Keys();
      var watch := O.WatchSet(key, list);
      watched, summed := list, list;
      ghost var start, n, w, n' := server.View(), server.others, server.View(), server.others;
      var seen, stored;
      seen, stored, w, n' := WatchAndGet(key, watch);
      var value := stored + amount;
      db, at := server.db, server.now;
      if value > maximum {
        RefusedByValue(O.Op(O.SumUp(watched, summed), key, amount, maximum, ttl), db, at);
        return Some(false), watched, summed, db, at;
      }
      list := keys.Keys();
      summed := list;
      ghost var read, r' := server.View(), server.others;
      var total := SumOf(list);
      db, at := server.db, server.now;
      ghost var op := O.Op(O.SumUp(watched, summed), key, amount, maximum, ttl);
      if amount + total > maximum {
        RefusedByTotal(op, db, at);
        return Some(false), watched, summed, db, at;
      }
      ghost var sum, m := server.View(), server.others;
      server.Elapse();
      db, at := server.db, server.now;
      TwoReads(start, n, w, n', read, r', sum, m, server.View(), server.others, watch, seen, op);
      var ok := server.Execute(seen, key, value, ttl);
      if !ok {
        return None, watched, summed, db, at;
      }
      assert server.db == Stored(db, key, Value(db, key, at) + amount, ttl, at);
      GrantedNow(op, db, at);
      r := Some(true);
    }

    /** The keys are computed anew for each WATCH and each MGET.  A grant whose
        summed counters were all watched, as when both lists agree, is the atomic
        operation; any grant is an atomic increment, and any refusal is right. */
    method IncrAndSum(key: Key, keys: KeySource, amount: int, maximum: int, ttl: int)
      returns (ok: bool, ghost watched: seq<Key>, ghost summed: seq<Key>, ghost db: Table, ghost at: real)
      modifies server, keys
      ensures var op := O.Op(O.SumUp(watched, summed), key, amount, maximum, ttl);
              if ok then IsGranted(op, db, at, server.db) else IsAtomic(op, false, db, at, db) && db == server.db
      ensures keys.Gave(old(keys.calls), ok, watched, summed)
      ensures server.LastMoment(old(server.turns), db, at)
    {
      hide LiveKeys, IsAtomic, IsGranted;
      while true
        invariant old(server.turns) <= server.turns && old(keys.calls) <= keys.calls
        decreases server.others, LiveKeys(server.View())
      {
        var r;
        r, watched, summed, db, at := TryIncrAndSum(key, keys, amount, maximum, ttl);
        if r.Some? {
          return r.value, watched, summed, db, at;
        }
      }
    }
  }

  /** The result of a call is that of the atomic operation on `db` at `at`. */
  ghost predicate IsAtomic(op: O.Op, ok: bool, db: Table, at: real, after: Table) {
    ok == O.Atomic(db, op, at).ok && (ok ==> after == O.Atomic(db, op, at).table)
  }

  /** A grant: atomic if every counter of the sum was watched, and in any case a
      bounded increment of the server's table. */
  ghost predicate IsGranted(op: O.Op, db: Table, at: real, after: Table) {
    IsAtomic(if O.Covered(op) then op else op.(kind := O.Incr), true, db, at, after)
  }

  lemma IncrDecides(key: Key, amount: int, maximum: int, ttl: int, db: Table, at: real)
    ensures var op, value := O.Op(O.Incr, key, amount, maximum, ttl), Value(db, key, at) + amount;
            if value > maximum then IsAtomic(op, false, db, at, db)
            else IsAtomic(op, true, db, at, Stored(db, key, value, ttl, at))
  {
  }

  lemma DecrDecides(key: Key, amount: int, minimum: int, ttl: int, db: Table, at: real)
    ensures var op, value := O.Op(O.Decr, key, amount, minimum, ttl), Value(db, key, at) - amount;
            if value < minimum then IsAtomic(op, false, db, at, db)
            else IsAtomic(op, true, db, at, Stored(db, key, value, ttl, at))
  {
  }

  lemma RefusedByValue(op: O.Op, db: Table, at: real)
    requires op.kind.SumUp? && Value(db, op.key, at) + op.amount > op.bound
    ensures IsAtomic(op, false, db, at, db)
  {
  }

  lemma RefusedByTotal(op: O.Op, db: Table, at: real)
    requires op.kind.SumUp? && op.amount + O.SumNow(db, op.kind.keys, at) > op.bound
    ensures IsAtomic(op, false, db, at, db)
  {
  }

  lemma GrantedNow(op: O.Op, db: Table, at: real)
    requires op.kind.SumUp? && Value(db, op.key, at) + op.amount <= op.bound
    requires O.Covered(op) ==> op.amount + O.SumNow(db, op.kind.keys, at) <= op.bound
    ensures IsGranted(op, db, at, Stored(db, op.key, Value(db, op.key, at) + op.amount, op.ttl, at))
  {
  }

  /** An attempt that reads one counter between WATCH and EXEC. */
  lemma OneRead(start: O.Sys, n: nat, watched: O.Sys, n': nat, read: O.Sys, r: nat, last: O.Sys, n'': nat,
                watch: set<Key>, seen: map<Key, O.Seen>, key: Key)
    requires Elapsed(start, n, watched, n') && Elapsed(watched, n', read, r) && Elapsed(read, r, last, n'')
    requires Snapshot(watched, watch, seen) && key in watch
    ensures O.Intact(last, seen) ==> Value(read.db, key, read.now) == Value(last.db, key, last.now)
    ensures !O.Intact(last, seen) ==> n'' < n || (n'' == n && LiveKeys(last) < LiveKeys(start))
  {
    hide Elapsed, Snapshot, LiveKeys, O.Intact, Value;
    Steady(watched, n', read, r, last, n'', watch, seen, key);
    if !O.Intact(last, seen) {
      ElapsedTwice(watched, n', read, r, last, n'');
      Progress(start, n, watched, n', last, n'', watch, seen);
    }
  }

  /** One that goes on to sum others. */
  lemma TwoReads(start: O.Sys, n: nat, watched: O.Sys, n': nat, read: O.Sys, r: nat,
                 summed: O.Sys, m: nat, last: O.Sys, n'': nat,
                 watch: set<Key>, seen: map<Key, O.Seen>, op: O.Op)
    requires op.kind.SumUp? && Elapsed(start, n, watched, n') && Elapsed(watched, n', read, r)
    requires Elapsed(read, r, summed, m) && Elapsed(summed, m, last, n'')
    requires Snapshot(watched, watch, seen) && watch == O.WatchSet(op.key, op.kind.watched)
    ensures O.Intact(last, seen) ==>
              && Value(read.db, op.key, read.now) == Value(last.db, op.key, last.now)
              && (O.Covered(op) ==>
                    O.SumNow(summed.db, op.kind.keys, summed.now) == O.SumNow(last.db, op.kind.keys, last.now))
    ensures !O.Intact(last, seen) ==> n'' < n || (n'' == n && LiveKeys(last) < LiveKeys(start))
  {
    hide Elapsed, Snapshot, LiveKeys, O.Intact, O.SumNow, Value;
    ElapsedTwice(read, r, summed, m, last, n'');
    OneRead(start, n, watched, n', read, r, last, n'', watch, seen, op.key);
    ElapsedTwice(watched, n', read, r, summed, m);
    if O.Covered(op) {
      SteadySum(watched, n', summed, m, last, n'', watch, seen, op.kind.keys);
    }
  }

  /** If the watch is still intact, a read in between saw the current value. */
  lemma Steady(watched: O.Sys, n: nat, read: O.Sys, n': nat, last: O.Sys, n'': nat,
               keys: set<Key>, seen: map<Key, O.Seen>, key: Key)
    requires Elapsed(watched, n, read, n') && Elapsed(read, n', last, n'')
    requires Snapshot(watched, keys, seen) && key in keys
    ensures O.Intact(last, seen) ==> Value(read.db, key, read.now) == Value(last.db, key, last.now)
  {
  }

  lemma SteadySum(watched: O.Sys, n: nat, read: O.Sys, n': nat, last: O.Sys, n'': nat,
                  watch: set<Key>, seen: map<Key, O.Seen>, keys: seq<Key>)
    requires Elapsed(watched, n, read, n') && Elapsed(read, n', last, n'')
    requires Snapshot(watched, watch, seen) && forall k :: k in keys ==> k in watch
    ensures O.Intact(last, seen) ==> O.SumNow(read.db, keys, read.now) == O.SumNow(last.db, keys, last.now)
  {
    if O.Intact(last, seen) {
      forall k | k in keys ensures Value(last.db, k, last.now) == Value(read.db, k, read.now) {
        Steady(watched, n, read, n', last, n'', watch, seen, k);
      }
      O.SameSum(read.db, last.db, keys, read.now, last.now);
    }
  }
}
