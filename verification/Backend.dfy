/** The rate-limit backends: what each operation does to the table of counters,
    as a function of the clock readings it takes. */
module Backend {
  import opened Keyspace

  datatype Key = Named(name: string) | Second(name: string, second: int)

  datatype Cell = Cell(value: int, expiry: real)

  type Table = map<Key, Cell>

  datatype Outcome = Outcome(ok: bool, table: Table)

  /** Times are in seconds, time-to-live in milliseconds. */
  function Seconds(ttl: int): real { ttl as real / 1000.0 }

  predicate Fresh(db: Table, key: Key, now: real) {
    key in db && db[key].expiry != 0.0 && now < db[key].expiry
  }

  function Get(db: Table, key: Key, now: real): Option<int> {
    if Fresh(db, key, now) then Some(db[key].value) else None
  }

  function Value(db: Table, key: Key, now: real): int {
    if Fresh(db, key, now) then db[key].value else 0
  }

  function Stored(db: Table, key: Key, value: int, ttl: int, now: real): Table {
    db[key := Cell(value, now + Seconds(ttl))]
  }

  // ----- one critical section each: `get` and `put` are its clock readings

  function Add(db: Table, key: Key, value: int, ttl: int, get: real, put: real): Outcome {
    if Fresh(db, key, get) then Outcome(false, db) else Outcome(true, Stored(db, key, value, ttl, put))
  }

  function Incr(db: Table, key: Key, amount: int, maximum: int, ttl: int, get: real, put: real): Outcome {
    var value := Value(db, key, get) + amount;
    if value > maximum then Outcome(false, db) else Outcome(true, Stored(db, key, value, ttl, put))
  }

  function Decr(db: Table, key: Key, amount: int, minimum: int, ttl: int, get: real, put: real): Outcome {
    var value := Value(db, key, get) - amount;
    if value < minimum then Outcome(false, db) else Outcome(true, Stored(db, key, value, ttl, put))
  }

  /** The sum of the counters, each read at its own time. */
  function Sum(db: Table, keys: seq<Key>, at: seq<real>): int
    requires |at| == |keys|
  {
    if keys == [] then 0
    else Sum(db, keys[..|keys| - 1], at[..|at| - 1]) + Value(db, keys[|keys| - 1], at[|at| - 1])
  }

  function IncrAndSum(db: Table, key: Key, keys: seq<Key>, amount: int, maximum: int, ttl: int,
                      get: real, at: seq<real>, put: real): Outcome
    requires |at| == |keys|
  {
    var value := Value(db, key, get) + amount;
    if value > maximum || amount + Sum(db, keys, at) > maximum then Outcome(false, db)
    else Outcome(true, Stored(db, key, value, ttl, put))
  }

  /** The keys of a window limiter in a given second: that second first, then
      backwards. */
  function Keys(name: string, second: int, n: nat): (keys: seq<Key>)
    ensures |keys| == n
    ensures forall i :: 0 <= i < n ==> keys[i] == Second(name, second - i)
  {
    seq(n, i => Second(name, second - i))
  }

  /** Clock readings taken one after the other. */
  ghost predicate Ordered(from: real, at: seq<real>, to: real) {
    && from <= to
    && (forall i :: 0 <= i < |at| ==> from <= at[i] <= to)
    && (forall i, j :: 0 <= i < j < |at| ==> at[i] <= at[j])
  }

  lemma NoReadings(db: Table, now: real)
    ensures Ordered(now, [], now) && Sum(db, [], []) == 0
  {
  }

  lemma OneMoreReading(from: real, at: seq<real>, to: real, t: real)
    requires Ordered(from, at, to) && to <= t
    ensures Ordered(from, at + [t], t)
  {
  }

  lemma OneMoreTerm(db: Table, keys: seq<Key>, i: nat, at: seq<real>, t: real)
    requires i < |keys| && |at| == i
    ensures Sum(db, keys[..i + 1], at + [t]) == Sum(db, keys[..i], at) + Value(db, keys[i], t)
  {
    assert keys[..i + 1][..i] == keys[..i];
    assert (at + [t])[..i] == at;
  }
}
