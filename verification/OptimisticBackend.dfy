/** The Redis backend's optimistic transactions: any number of clients
    interleave WATCH, GET, MGET and EXEC on one table, and every result is the
    result of the atomic operation at one instant. */
module Optimistic {
  import opened Backend
  import opened Sequences

  /** The two lists are what `keys()` returns at WATCH and at MGET. */
  datatype Kind = Incr | Decr | SumUp(watched: seq<Key>, keys: seq<Key>)

  /** One call of `incr`, `decr` or `incr_and_sum`. */
  datatype Op = Op(kind: Kind, key: Key, amount: int, bound: int, ttl: int)

  /** What WATCH remembers of a key: its write count, and whether it was live. */
  datatype Seen = Seen(version: nat, live: bool)

  datatype Client =
    | Idle(op: Op)
    | Watching(op: Op, seen: map<Key, Seen>)
    | Summing(op: Op, seen: map<Key, Seen>, value: int)
    | Writing(op: Op, seen: map<Key, Seen>, value: int)
    | Finished(op: Op, ok: bool)

  datatype Sys = Sys(db: Table, versions: map<Key, nat>, now: real, clients: map<nat, Client>)

  function Version(s: Sys, key: Key): nat {
    if key in s.versions then s.versions[key] else 0
  }

  function WatchSet(key: Key, others: seq<Key>): set<Key> {
    {key} + set k | k in others
  }

  function Watched(op: Op): set<Key> {
    WatchSet(op.key, if op.kind.SumUp? then op.kind.watched else [])
  }

  /** Every counter that is summed is watched, as it is when both lists agree. */
  predicate Covered(op: Op) {
    op.kind.SumUp? ==> forall k :: k in op.kind.keys ==> k in Watched(op)
  }

  function NewValue(op: Op, value: int): int {
    if op.kind.Decr? then value - op.amount else value + op.amount
  }

  function OutOfBounds(op: Op, value: int): bool {
    if op.kind.Decr? then value < op.bound else value > op.bound
  }

  function SumNow(db: Table, keys: seq<Key>, now: real): int {
    Sum(db, keys, seq(|keys|, _ => now))
  }

  /** The operation done at one instant, as the stub backend's mutex does it. */
  function Atomic(db: Table, op: Op, now: real): Outcome {
    match op.kind
    case Incr => Backend.Incr(db, op.key, op.amount, op.bound, op.ttl, now, now)
    case Decr => Backend.Decr(db, op.key, op.amount, op.bound, op.ttl, now, now)
    case SumUp(_, keys) =>
      IncrAndSum(db, op.key, keys, op.amount, op.bound, op.ttl, now, seq(|keys|, _ => now), now)
  }

  /** EXEC goes through unless a watched key was written, or expired, since. */
  predicate Intact(s: Sys, seen: map<Key, Seen>) {
    forall k :: k in seen ==> seen[k].version == Version(s, k) && (seen[k].live ==> Fresh(s.db, k, s.now))
  }

  datatype Action = Tick(to: real) | Watch(c: nat) | Read(c: nat) | ReadMany(c: nat) | Exec(c: nat)

  function AfterRead(client: Client, s: Sys): Client
    requires client.Watching?
  {
    var op := client.op;
    var value := NewValue(op, Value(s.db, op.key, s.now));
    if OutOfBounds(op, value) then Finished(op, false)
    else if op.kind.SumUp? then Summing(op, client.seen, value)
    else Writing(op, client.seen, value)
  }

  function AfterReadMany(client: Client, s: Sys): Client
    requires client.Summing? && client.op.kind.SumUp?
  {
    var op := client.op;
    if op.amount + SumNow(s.db, op.kind.keys, s.now) > op.bound then Finished(op, false)
    else Writing(op, client.seen, client.value)
  }

  function Looked(s: Sys, op: Op): map<Key, Seen> {
    map k | k in Watched(op) :: Seen(Version(s, k), Fresh(s.db, k, s.now))
  }

  ghost predicate Next(s: Sys, a: Action, s': Sys) {
    match a
    case Tick(to) => s.now <= to && s' == s.(now := to)
    case Watch(c) =>
      && c in s.clients && s.clients[c].Idle?
      && s' == s.(clients := s.clients[c := Watching(s.clients[c].op, Looked(s, s.clients[c].op))])
    case Read(c) =>
      && c in s.clients && s.clients[c].Watching?
      && s' == s.(clients := s.clients[c := AfterRead(s.clients[c], s)])
    case ReadMany(c) =>
      && c in s.clients && s.clients[c].Summing? && s.clients[c].op.kind.SumUp?
      && s' == s.(clients := s.clients[c := AfterReadMany(s.clients[c], s)])
    case Exec(c) =>
      && c in s.clients && s.clients[c].Writing?
      && var client := s.clients[c];
      && var op := client.op;
      && s' == if Intact(s, client.seen)
               then s.(db := Stored(s.db, op.key, client.value, op.ttl, s.now),
                       versions := s.versions[op.key := Version(s, op.key) + 1],
                       clients := s.clients[c := Finished(op, true)])
               else s.(clients := s.clients[c := Idle(op)])
  }

  // ----- what a client has read is still so, while its watch is intact

  ghost predicate ClientInv(s: Sys, client: Client) {
    match client
    case Idle(_) => true
    case Finished(_, _) => true
    case Watching(op, seen) => seen.Keys == Watched(op) && SeenBefore(s, seen)
    case Summing(op, seen, value) =>
      && op.kind.SumUp? && seen.Keys == Watched(op) && SeenBefore(s, seen)
      && !OutOfBounds(op, value)
      && (Intact(s, seen) ==> value == NewValue(op, Value(s.db, op.key, s.now)))
    case Writing(op, seen, value) =>
      && seen.Keys == Watched(op) && SeenBefore(s, seen)
      && !OutOfBounds(op, value)
      && (Intact(s, seen) ==> value == NewValue(op, Value(s.db, op.key, s.now)))
      && (Intact(s, seen) && op.kind.SumUp? && Covered(op) ==>
            op.amount + SumNow(s.db, op.kind.keys, s.now) <= op.bound)
  }

  /** Versions only grow, and what was expired at WATCH stays so until a write. */
  ghost predicate SeenBefore(s: Sys, seen: map<Key, Seen>) {
    forall k :: k in seen ==>
      seen[k].version <= Version(s, k)
      && (seen[k].version == Version(s, k) && !seen[k].live ==> !Fresh(s.db, k, s.now))
  }

  ghost predicate Inv(s: Sys) {
    forall c :: c in s.clients ==> ClientInv(s, s.clients[c])
  }

  /** The same table and versions on the watched keys, at the same or a later
      time: an intact watch has seen the same values. */
  lemma {:induction false} SameSum(db: Table, db': Table, keys: seq<Key>, now: real, now': real)
    requires forall k :: k in keys ==> Value(db', k, now') == Value(db, k, now)
    ensures SumNow(db', keys, now') == SumNow(db, keys, now)
  {
    if keys != [] {
      var front := keys[..|keys| - 1];
      assert seq(|keys|, _ => now)[..|keys| - 1] == seq(|front|, _ => now);
      assert seq(|keys|, _ => now')[..|keys| - 1] == seq(|front|, _ => now');
      SameSum(db, db', front, now, now');
    }
  }

  ghost predicate Unmoved(s: Sys, s': Sys) {
    && s.now <= s'.now
    && (forall k :: Version(s, k) <= Version(s', k))
    && (forall k :: Version(s, k) == Version(s', k) ==>
          (k in s.db <==> k in s'.db) && (k in s.db ==> s'.db[k] == s.db[k]))
  }

  lemma ClientKeeps(s: Sys, s': Sys, client: Client)
    requires Unmoved(s, s') && ClientInv(s, client)
    ensures ClientInv(s', client)
  {
    if !client.Idle? && !client.Finished? && Intact(s', client.seen) {
      IntactBefore(s, s', client.seen);
      if client.Writing? && client.op.kind.SumUp? && Covered(client.op) {
        SameSum(s.db, s'.db, client.op.kind.keys, s.now, s'.now);
      }
    }
  }

  lemma IntactBefore(s: Sys, s': Sys, seen: map<Key, Seen>)
    requires Unmoved(s, s') && SeenBefore(s, seen) && Intact(s', seen)
    ensures Intact(s, seen)
    ensures forall k :: k in seen ==> Value(s'.db, k, s'.now) == Value(s.db, k, s.now)
  {
  }

  lemma NextKeeps(s: Sys, a: Action, s': Sys)
    requires Inv(s) && Next(s, a, s')
    ensures Inv(s')
  {
    assert Unmoved(s, s');
    forall c | c in s'.clients ensures ClientInv(s', s'.clients[c]) {
      assert ClientInv(s, s.clients[c]);
      ClientKeeps(s, s', s.clients[c]);
    }
  }

  // ----- refinement

  function ClientOf(a: Action): nat
    requires !a.Tick?
  {
    a.c
  }

  /** Every step either leaves the table alone and decides nothing, or is the
      whole atomic operation of one client, at this instant, with the result
      that the client returns.  A commit that summed a counter without watching
      it is an atomic increment all the same. */
  lemma StepRefines(s: Sys, a: Action, s': Sys)
    requires Inv(s) && Next(s, a, s')
    ensures a.Tick? ==> s'.db == s.db && s'.clients == s.clients
    ensures !a.Tick? ==>
              var c := ClientOf(a);
              if s'.clients[c].Finished?
              then Outcome(s'.clients[c].ok, s'.db)
                   == Atomic(s.db, if Covered(s.clients[c].op) || !s'.clients[c].ok then s.clients[c].op
                                   else s.clients[c].op.(kind := Incr), s.now)
              else s'.db == s.db
    ensures forall c :: c in s.clients && (a.Tick? || c != ClientOf(a)) ==> s'.clients[c] == s.clients[c]
  {
    if !a.Tick? {
      assert ClientInv(s, s.clients[ClientOf(a)]);
    }
  }

  // ----- the counters never sum above the maximum

  /** Whatever writes one of these counters lowers it, or bounds a sum that
      includes them all by at most `maximum`. */
  predicate Respects(op: Op, keys: seq<Key>, maximum: int) {
    && (op.kind.Decr? ==> 0 <= op.bound)
    && (op.key in keys && op.kind.Decr? ==> 0 <= op.amount)
    && (!op.kind.Decr? ==> 0 <= op.amount)
    && (op.key in keys && !op.kind.Decr? ==>
          op.kind.SumUp? && Covered(op) && op.bound <= maximum && forall k :: k in keys ==> k in op.kind.keys)
  }

  ghost predicate AllRespect(s: Sys, keys: seq<Key>, maximum: int) {
    forall c :: c in s.clients ==> Respects(s.clients[c].op, keys, maximum)
  }

  ghost predicate Within(s: Sys, keys: seq<Key>, maximum: int) {
    && (forall k :: k in s.db ==> s.db[k].value >= 0)
    && SumNow(s.db, keys, s.now) <= maximum
  }

  lemma {:induction false} SumAppends(db: Table, a: seq<Key>, b: seq<Key>, now: real)
    ensures SumNow(db, a + b, now) == SumNow(db, a, now) + SumNow(db, b, now)
  {
    if b == [] {
      assert a + b == a;
    } else {
      var front := b[..|b| - 1];
      assert (a + b)[..|a + b| - 1] == a + front;
      SumAppends(db, a, front, now);
      SumLast(db, a + b, now);
      SumLast(db, b, now);
    }
  }

  lemma SumLast(db: Table, keys: seq<Key>, now: real)
    requires keys != []
    ensures SumNow(db, keys, now) == SumNow(db, keys[..|keys| - 1], now) + Value(db, keys[|keys| - 1], now)
  {
    assert seq(|keys|, _ => now)[..|keys| - 1] == seq(|keys| - 1, _ => now);
  }

  /** A sum over some of the keys is at most the sum over all. */
  lemma {:induction false} SumOverFewer(db: Table, keys: seq<Key>, all: seq<Key>, now: real)
    requires Distinct(keys) && (forall k :: k in keys ==> k in all) && forall k :: k in db ==> db[k].value >= 0
    ensures 0 <= SumNow(db, keys, now) <= SumNow(db, all, now)
    decreases |all|
  {
    if keys == [] {
      SumIsNatural(db, all, now);
    } else {
      var front, last := keys[..|keys| - 1], keys[|keys| - 1];
      assert last in keys && last in all;
      var i :| 0 <= i < |all| && all[i] == last;
      var a, b := all[..i], all[i + 1..];
      assert all == a + ([last] + b);
      forall k | k in front ensures k in a + b {
        assert k in keys && k != last;
      }
      SumOverFewer(db, front, a + b, now);
      SumAppends(db, a, b, now);
      SumAppends(db, a, [last] + b, now);
      SumAppends(db, [last], b, now);
      SumLast(db, keys, now);
      SumLast(db, [last], now);
      assert [last][..0] == [];
    }
  }

  lemma {:induction false} SumIsNatural(db: Table, keys: seq<Key>, now: real)
    requires forall k :: k in db ==> db[k].value >= 0
    ensures 0 <= SumNow(db, keys, now)
  {
    if keys != [] {
      SumIsNatural(db, keys[..|keys| - 1], now);
      SumLast(db, keys, now);
    }
  }

  lemma {:induction false} SumAges(db: Table, keys: seq<Key>, now: real, now': real)
    requires now <= now' && forall k :: k in db ==> db[k].value >= 0
    ensures SumNow(db, keys, now') <= SumNow(db, keys, now)
  {
    if keys != [] {
      var front := keys[..|keys| - 1];
      assert seq(|keys|, _ => now)[..|keys| - 1] == seq(|front|, _ => now);
      assert seq(|keys|, _ => now')[..|keys| - 1] == seq(|front|, _ => now');
      SumAges(db, front, now, now');
    }
  }

  lemma {:induction false} SumAfterWrite(db: Table, db': Table, keys: seq<Key>, key: Key, amount: int, now: real)
    requires Distinct(keys) && key in keys
    requires forall k :: k != key ==> Value(db', k, now) == Value(db, k, now)
    requires Value(db', key, now) <= Value(db, key, now) + amount
    ensures SumNow(db', keys, now) <= SumNow(db, keys, now) + amount
  {
    var front, last := keys[..|keys| - 1], keys[|keys| - 1];
    assert seq(|keys|, _ => now)[..|keys| - 1] == seq(|front|, _ => now);
    assert keys == front + [last];
    if key in front {
      SumAfterWrite(db, db', front, key, amount, now);
    } else {
      SameSum(db, db', front, now, now);
    }
  }

  lemma SameOps(s: Sys, a: Action, s': Sys)
    requires Next(s, a, s')
    ensures s'.clients.Keys == s.clients.Keys && forall c :: c in s.clients ==> s'.clients[c].op == s.clients[c].op
    ensures s.now <= s'.now && (!a.Tick? ==> s'.now == s.now && ClientOf(a) in s.clients)
  {
  }

  lemma WriteStaysWithin(db: Table, op: Op, done: Op, ok: bool, db': Table, keys: seq<Key>, maximum: int, now: real)
    requires Distinct(keys) && Respects(op, keys, maximum)
    requires done == if Covered(op) || !ok then op else op.(kind := Incr)
    requires Outcome(ok, db') == Atomic(db, done, now) && db' != db
    requires (forall k :: k in db ==> db[k].value >= 0) && SumNow(db, keys, now) <= maximum
    ensures (forall k :: k in db' ==> db'[k].value >= 0) && SumNow(db', keys, now) <= maximum
  {
    hide SumNow;
    if op.key !in keys {
      SameSum(db, db', keys, now, now);
    } else if op.kind.Decr? {
      SumAfterWrite(db, db', keys, op.key, 0, now);
    } else {
      SumOverFewer(db, keys, op.kind.keys, now);
      BoundedSum(db, op, db', now);
      SumAfterWrite(db, db', keys, op.key, op.amount, now);
    }
  }

  lemma BoundedSum(db: Table, op: Op, db': Table, now: real)
    requires op.kind.SumUp? && Outcome(true, db') == Atomic(db, op, now)
    ensures op.amount + SumNow(db, op.kind.keys, now) <= op.bound
  {
  }

  lemma StepStaysWithin(s: Sys, a: Action, s': Sys, keys: seq<Key>, maximum: int)
    requires Inv(s) && Next(s, a, s') && Distinct(keys)
    requires AllRespect(s, keys, maximum) && Within(s, keys, maximum)
    ensures AllRespect(s', keys, maximum) && Within(s', keys, maximum)
  {
    hide Inv, Next, Atomic, SumNow, Covered, Respects;
    StepRefines(s, a, s');
    SameOps(s, a, s');
    if a.Tick? {
      SumAges(s.db, keys, s.now, s'.now);
    } else if s'.db != s.db {
      var c := ClientOf(a);
      var op, ok := s.clients[c].op, s'.clients[c].ok;
      var done := if Covered(op) || !ok then op else op.(kind := Incr);
      WriteStaysWithin(s.db, op, done, ok, s'.db, keys, maximum, s.now);
    }
  }

  ghost predicate Start(s: Sys) {
    forall c :: c in s.clients ==> s.clients[c].Idle?
  }

  ghost predicate NextAt(states: seq<Sys>, actions: seq<Action>, i: nat)
    requires |states| == |actions| + 1 && i < |actions|
  {
    Next(states[i], actions[i], states[i + 1])
  }

  ghost predicate Run(states: seq<Sys>, actions: seq<Action>) {
    && |states| == |actions| + 1
    && Start(states[0])
    && forall i :: 0 <= i < |actions| ==> NextAt(states, actions, i)
  }

  lemma {:induction false} RunKeeps(states: seq<Sys>, actions: seq<Action>, i: nat)
    requires Run(states, actions) && i < |states|
    ensures Inv(states[i])
  {
    if i > 0 {
      RunKeeps(states, actions, i - 1);
      assert NextAt(states, actions, i - 1);
      NextKeeps(states[i - 1], actions[i - 1], states[i]);
    }
  }

  /** However the clients interleave, and whatever else they do, the counters
      never sum above the maximum. */
  lemma {:induction false} NeverAboveMaximum(
    states: seq<Sys>, actions: seq<Action>, i: nat, keys: seq<Key>, maximum: int)
    requires Run(states, actions) && i < |states| && Distinct(keys)
    requires AllRespect(states[0], keys, maximum) && Within(states[0], keys, maximum)
    ensures AllRespect(states[i], keys, maximum) && Within(states[i], keys, maximum)
  {
    if i > 0 {
      NeverAboveMaximum(states, actions, i - 1, keys, maximum);
      RunKeeps(states, actions, i - 1);
      assert NextAt(states, actions, i - 1);
      StepStaysWithin(states[i - 1], actions[i - 1], states[i], keys, maximum);
    }
  }

  // ----- the stub's first critical section is invisible

  /** Adding a zero for an absent key changes no value that is read later, so
      the stub's two sections together also do the atomic operation. */
  lemma AddZeroInvisible(db: Table, key: Key, ttl: int, get: real, put: real, k: Key, now: real)
    requires get <= put <= now
    ensures Value(Add(db, key, 0, ttl, get, put).table, k, now) == Value(db, k, now)
  {
  }
}
