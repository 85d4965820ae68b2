/** The sliding-window rate limiter over any interleaving of acquisitions. */
module WindowLimiter {
  import opened Backend

  datatype Limiter = Limiter(name: string, limit: int, window: nat)

  /** The table, the times of the grants so far, and the clock. */
  datatype State = State(db: Table, grants: seq<real>, now: real)

  /** The two critical sections of an acquisition: the `add` of a zero to the
      counter of `second`, then its bounded increment.  The keys of the first
      section are those of `second`; the sum is over the window that ends with
      `last`, the second in which the keys are computed again. */
  datatype Event =
    | AddZero(second: int, get: real, put: real)
    | Grant(second: int, get: real, last: int, at: seq<real>, put: real)

  function Ttl(l: Limiter): int { l.window * 1000 }

  function Result(l: Limiter, s: State, e: Event): Outcome
    requires e.Grant? ==> |e.at| == l.window
  {
    match e
    case AddZero(k, get, put) => Add(s.db, Second(l.name, k), 0, Ttl(l), get, put)
    case Grant(k, get, last, at, put) =>
      IncrAndSum(s.db, Second(l.name, k), Keys(l.name, last, l.window), 1, l.limit, Ttl(l), get, at, put)
  }

  function Apply(l: Limiter, s: State, e: Event): State
    requires e.Grant? ==> |e.at| == l.window
  {
    var o := Result(l, s, e);
    State(o.table, if e.Grant? && o.ok then s.grants + [e.put] else s.grants, e.put)
  }

  /** A monotone clock, read first for the keys, then in the critical sections,
      during which the keys are computed again. */
  ghost predicate Enabled(l: Limiter, s: State, e: Event) {
    && s.now <= e.get && e.second <= e.get.Floor
    && match e
       case AddZero(_, get, put) => get <= put
       case Grant(_, get, last, at, put) =>
         |at| == l.window && Ordered(get, at, put) && e.second <= last <= put.Floor
  }

  /** A grant is written in the second of its counter. */
  predicate Punctual(l: Limiter, s: State, e: Event) {
    e.Grant? && |e.at| == l.window && Result(l, s, e).ok ==> e.put.Floor == e.second
  }

  // ----- counting grants

  function Granted(grants: seq<real>, second: int): nat {
    if grants == [] then 0
    else Granted(grants[..|grants| - 1], second) + if grants[|grants| - 1].Floor == second then 1 else 0
  }

  /** Grants in the `n` seconds that end with `second`. */
  function InWindow(grants: seq<real>, second: int, n: nat): nat
    decreases n
  {
    if n == 0 then 0 else Granted(grants, second) + InWindow(grants, second - 1, n - 1)
  }

  lemma {:induction false} OneMore(grants: seq<real>, t: real, second: int, n: nat)
    ensures InWindow(grants + [t], second, n)
            == InWindow(grants, second, n) + if second - n < t.Floor <= second then 1 else 0
    decreases n
  {
    if n > 0 {
      assert (grants + [t])[..|grants|] == grants;
      OneMore(grants, t, second - 1, n - 1);
    }
  }

  /** Seconds without a grant add nothing at the end of a window. */
  lemma {:induction false} QuietEnd(grants: seq<real>, now: int, second: int, n: nat)
    requires now <= second
    requires forall k :: now < k ==> Granted(grants, k) == 0
    ensures InWindow(grants, second, n) <= InWindow(grants, now, n)
    decreases second - now
  {
    if now < second {
      if n > 0 {
        LongerWindow(grants, second - 1, n - 1);
      }
      QuietEnd(grants, now, second - 1, n);
    }
  }

  lemma {:induction false} LongerWindow(grants: seq<real>, second: int, n: nat)
    ensures InWindow(grants, second, n) <= InWindow(grants, second, n + 1)
    decreases n
  {
    if n > 0 {
      LongerWindow(grants, second - 1, n - 1);
    }
  }

  // ----- the exact condition

  /** What holds of every reachable state: nothing happens in the future. */
  ghost predicate Inv(l: Limiter, s: State) {
    && 0.0 <= s.now
    && forall k :: s.now.Floor < k ==> Second(l.name, k) !in s.db && Granted(s.grants, k) == 0
  }

  /** The counter of a second holds its grants, and cannot expire while the
      second is inside the window. */
  ghost predicate CounterExact(l: Limiter, s: State, k: int) {
    var key := Second(l.name, k);
    if key in s.db
    then s.db[key].value == Granted(s.grants, k) && (k + l.window) as real <= s.db[key].expiry
    else Granted(s.grants, k) == 0
  }

  /** So it is for every second that still counts, and no window of whole
      seconds has seen more than `limit` grants. */
  ghost predicate Exact(l: Limiter, s: State) {
    && (forall k :: s.now.Floor - l.window < k ==> CounterExact(l, s, k))
    && (forall k :: InWindow(s.grants, k, l.window) <= l.limit)
  }

  lemma CounterReads(l: Limiter, s: State, second: int, k: int, t: real)
    requires CounterExact(l, s, k) && 0.0 <= t
    requires second - l.window < k <= second && t < (second + 1) as real
    ensures Value(s.db, Second(l.name, k), t) == Granted(s.grants, k)
  {
    assert (second + 1) as real <= (k + l.window) as real;
  }

  lemma {:induction false} SumReads(l: Limiter, s: State, second: int, n: nat, at: seq<real>)
    requires Exact(l, s) && s.now.Floor <= second && n <= l.window && |at| == n
    requires forall i :: 0 <= i < n ==> 0.0 <= at[i] < (second + 1) as real
    ensures Sum(s.db, Keys(l.name, second, n), at) == InWindow(s.grants, second, n)
    decreases n
  {
    if n > 0 {
      assert Keys(l.name, second, n)[..n - 1] == Keys(l.name, second, n - 1);
      SumReads(l, s, second, n - 1, at[..n - 1]);
      assert CounterExact(l, s, second - n + 1);
      CounterReads(l, s, second, second - n + 1, at[n - 1]);
      LastOfWindow(s.grants, second, n);
    }
  }

  lemma {:induction false} LastOfWindow(grants: seq<real>, second: int, n: nat)
    requires n > 0
    ensures InWindow(grants, second, n) == InWindow(grants, second, n - 1) + Granted(grants, second - n + 1)
    decreases n
  {
    if n > 1 {
      LastOfWindow(grants, second - 1, n - 1);
    }
  }

  /** An acquisition within one second is granted exactly when the window that
      ends with that second has room. */
  lemma GrantDecides(l: Limiter, s: State, e: Event)
    requires 0 < l.limit && 0 < l.window && Inv(l, s) && Exact(l, s) && Enabled(l, s, e)
    requires e.Grant? && e.put.Floor == e.second
    ensures Result(l, s, e).ok <==> InWindow(s.grants, e.second, l.window) < l.limit
    ensures Value(s.db, Second(l.name, e.second), e.get) == Granted(s.grants, e.second)
    ensures e.last == e.second && s.now.Floor <= e.second
  {
    assert e.get.Floor == e.second == e.last;
    assert CounterExact(l, s, e.second);
    CounterReads(l, s, e.second, e.second, e.get);
    SumReads(l, s, e.second, l.window, e.at);
  }

  lemma InvKeeps(l: Limiter, s: State, e: Event)
    requires Inv(l, s) && Enabled(l, s, e)
    ensures Inv(l, Apply(l, s, e)) && s.now <= Apply(l, s, e).now
  {
    assert (s.grants + [e.put])[..|s.grants|] == s.grants;
  }

  /** Time passing changes nothing. */
  lemma Ages(l: Limiter, s: State, now: real)
    requires Inv(l, s) && Exact(l, s) && s.now <= now
    ensures Inv(l, s.(now := now)) && Exact(l, s.(now := now))
  {
    var s' := s.(now := now);
    forall k | s'.now.Floor - l.window < k ensures CounterExact(l, s', k) {
      assert CounterExact(l, s, k);
    }
  }

  /** Adding a zero never touches a counter that still counts. */
  lemma AddKeeps(l: Limiter, s: State, e: Event)
    requires 0 < l.window && Inv(l, s) && Exact(l, s) && Enabled(l, s, e) && e.AddZero?
    ensures Exact(l, Apply(l, s, e))
  {
    var s' := Apply(l, s, e);
    assert Seconds(Ttl(l)) == l.window as real;
    forall k | s'.now.Floor - l.window < k ensures CounterExact(l, s', k) {
      assert CounterExact(l, s, k);
      if k == e.second {
        CounterReads(l, s, e.put.Floor, k, e.get);
      }
    }
  }

  lemma GrantCounts(l: Limiter, s: State, e: Event, k: int)
    requires 0 < l.limit && 0 < l.window && Inv(l, s) && Exact(l, s) && Enabled(l, s, e)
    requires e.Grant? && e.put.Floor == e.second && Result(l, s, e).ok
    requires e.second - l.window < k
    ensures CounterExact(l, Apply(l, s, e), k)
  {
    GrantDecides(l, s, e);
    assert CounterExact(l, s, k);
    assert Seconds(Ttl(l)) == l.window as real;
    assert (s.grants + [e.put])[..|s.grants|] == s.grants;
  }

  lemma PunctualKeeps(l: Limiter, s: State, e: Event)
    requires 0 < l.limit && 0 < l.window && Inv(l, s) && Exact(l, s) && Enabled(l, s, e)
    requires e.Grant? && e.put.Floor == e.second && Result(l, s, e).ok
    ensures Exact(l, Apply(l, s, e))
  {
    var s' := Apply(l, s, e);
    forall k | s'.now.Floor - l.window < k ensures CounterExact(l, s', k) {
      GrantCounts(l, s, e, k);
    }
    GrantDecides(l, s, e);
    forall k ensures InWindow(s'.grants, k, l.window) <= l.limit {
      OneMore(s.grants, e.put, k, l.window);
      if k - l.window < e.second <= k {
        QuietEnd(s.grants, e.second, k, l.window);
      }
    }
  }

  /** A grant that is written in a later second than its counter's is missing
      from that second. */
  lemma LateIsInexact(l: Limiter, s: State, s': State, second: int, put: real)
    requires 0 < l.window && Inv(l, s) && Exact(l, s)
    requires s.now <= put == s'.now && second < put.Floor && s'.grants == s.grants + [put]
    requires forall k :: k != second ==>
               var key := Second(l.name, k);
               (key in s'.db <==> key in s.db) && (key in s.db ==> s'.db[key] == s.db[key])
    ensures !Exact(l, s')
  {
    var p := put.Floor;
    assert s'.grants[..|s.grants|] == s.grants;
    assert CounterExact(l, s, p);
    assert !CounterExact(l, s', p);
  }

  /** A step keeps the counters exact, and the limit, exactly if it is no grant
      or one that is written in the second of its counter. */
  lemma StepExactly(l: Limiter, s: State, e: Event)
    requires 0 < l.limit && 0 < l.window && Inv(l, s) && Exact(l, s) && Enabled(l, s, e)
    ensures Exact(l, Apply(l, s, e)) <==> Punctual(l, s, e)
  {
    if e.AddZero? {
      AddKeeps(l, s, e);
    } else if !Result(l, s, e).ok {
      var s' := Apply(l, s, e);
      forall k | s'.now.Floor - l.window < k ensures CounterExact(l, s', k) {
        assert CounterExact(l, s, k);
      }
    } else if e.put.Floor == e.second {
      PunctualKeeps(l, s, e);
    } else {
      LateIsInexact(l, s, Apply(l, s, e), e.second, e.put);
    }
  }

  // ----- runs

  ghost predicate StepAt(l: Limiter, states: seq<State>, events: seq<Event>, i: nat)
    requires |states| == |events| + 1 && i < |events|
  {
    Enabled(l, states[i], events[i]) && states[i + 1] == Apply(l, states[i], events[i])
  }

  ghost predicate Steps(l: Limiter, states: seq<State>, events: seq<Event>) {
    && |states| == |events| + 1
    && forall i :: 0 <= i < |events| ==> StepAt(l, states, events, i)
  }

  const START := State(map[], [], 0.0)

  ghost predicate Run(l: Limiter, states: seq<State>, events: seq<Event>) {
    Steps(l, states, events) && states[0] == START
  }

  lemma {:induction false} NothingGranted(second: int, n: nat)
    ensures InWindow([], second, n) == 0
    decreases n
  {
    if n > 0 {
      NothingGranted(second - 1, n - 1);
    }
  }

  lemma StartExact(l: Limiter)
    requires 0 < l.limit
    ensures Inv(l, START) && Exact(l, START)
  {
    forall k ensures InWindow([], k, l.window) == 0 {
      NothingGranted(k, l.window);
    }
  }

  lemma {:induction false} RunKeeps(l: Limiter, states: seq<State>, events: seq<Event>, i: nat)
    requires 0 < l.limit && Run(l, states, events) && i < |states|
    ensures Inv(l, states[i])
  {
    if i == 0 {
      StartExact(l);
    } else {
      RunKeeps(l, states, events, i - 1);
      assert StepAt(l, states, events, i - 1);
      InvKeeps(l, states[i - 1], events[i - 1]);
    }
  }

  ghost predicate PunctualAt(l: Limiter, states: seq<State>, events: seq<Event>, i: nat)
    requires |states| == |events| + 1 && i < |events|
  {
    StepAt(l, states, events, i) && Punctual(l, states[i], events[i])
  }

  /** The first `n` events have no late grant among them. */
  ghost predicate PunctualUntil(l: Limiter, states: seq<State>, events: seq<Event>, n: nat)
    requires |states| == |events| + 1 && n <= |events|
  {
    forall i :: 0 <= i < n ==> PunctualAt(l, states, events, i)
  }

  /** Over every interleaving the counters that count have been exact, and no
      window of whole seconds over its limit, exactly if every grant was written
      in the second of its counter. */
  lemma {:induction false} LimitExactly(l: Limiter, states: seq<State>, events: seq<Event>, n: nat)
    requires 0 < l.limit && 0 < l.window && Run(l, states, events) && n < |states|
    ensures (forall i :: 0 <= i <= n ==> Exact(l, states[i])) <==> PunctualUntil(l, states, events, n)
  {
    hide Exact, Enabled, Apply, Punctual;
    if n == 0 {
      StartExact(l);
    } else {
      LimitExactly(l, states, events, n - 1);
      RunKeeps(l, states, events, n - 1);
      assert StepAt(l, states, events, n - 1);
      if Exact(l, states[n - 1]) {
        StepExactly(l, states[n - 1], events[n - 1]);
      }
      assert PunctualAt(l, states, events, n - 1) <==> Punctual(l, states[n - 1], events[n - 1]);
    }
  }

  /** So if no grant straddles two seconds, at most `limit` grants fall into any
      `window` consecutive seconds. */
  lemma WindowHolds(l: Limiter, states: seq<State>, events: seq<Event>, i: nat, second: int)
    requires 0 < l.limit && 0 < l.window && Run(l, states, events) && i < |states|
    requires PunctualUntil(l, states, events, i)
    ensures InWindow(states[i].grants, second, l.window) <= l.limit
  {
    LimitExactly(l, states, events, i);
  }

  // ----- windows that do not start on a whole second

  /** Grants from time `from` to time `from + length`, both included. */
  function Spanned(grants: seq<real>, from: real, length: real): nat {
    if grants == [] then 0
    else
      var t := grants[|grants| - 1];
      Spanned(grants[..|grants| - 1], from, length) + if from <= t <= from + length then 1 else 0
  }

  lemma {:induction false} SpanInWindow(grants: seq<real>, from: real, n: nat)
    requires 0 < n
    ensures Spanned(grants, from, (n - 1) as real) <= InWindow(grants, from.Floor + n - 1, n)
  {
    if grants != [] {
      var rest, t := grants[..|grants| - 1], grants[|grants| - 1];
      assert grants == rest + [t];
      SpanInWindow(rest, from, n);
      OneMore(rest, t, from.Floor + n - 1, n);
    }
  }

  /** So any stretch of `window - 1` seconds sees at most `limit` grants. */
  lemma ShorterSpanHolds(l: Limiter, states: seq<State>, events: seq<Event>, i: nat, from: real)
    requires 0 < l.limit && 0 < l.window && Run(l, states, events) && i < |states|
    requires PunctualUntil(l, states, events, i)
    ensures Spanned(states[i].grants, from, (l.window - 1) as real) <= l.limit
  {
    WindowHolds(l, states, events, i, from.Floor + l.window - 1);
    SpanInWindow(states[i].grants, from, l.window);
  }

  lemma Extend(l: Limiter, states: seq<State>, events: seq<Event>, e: Event)
    requires Steps(l, states, events) && Enabled(l, states[|events|], e)
    ensures Steps(l, states + [Apply(l, states[|events|], e)], events + [e])
  {
    var states', events' := states + [Apply(l, states[|events|], e)], events + [e];
    forall i | 0 <= i < |events'| ensures StepAt(l, states', events', i) {
      if i < |events| {
        assert StepAt(l, states, events, i);
      }
    }
  }

  /** `limit` grants at one time in the first second, or fewer. */
  lemma {:induction false} FillFirstSecond(l: Limiter, t: real, n: nat) returns (states: seq<State>, events: seq<Event>)
    requires 0 < l.limit && 0 < l.window && 0.0 <= t < 1.0 && n <= l.limit
    ensures Run(l, states, events) && PunctualUntil(l, states, events, |events|)
    ensures var grants := states[|events|].grants; |grants| == n && forall i :: 0 <= i < n ==> grants[i] == t
    ensures states[|events|].now <= t
  {
    if n == 0 {
      states, events := [START], [];
    } else {
      states, events := FillFirstSecond(l, t, n - 1);
      var s := states[|events|];
      AllIn(s.grants, t, 0, l.window);
      states, events := OneGrant(l, states, events, t);
    }
  }

  /** An acquisition at one instant, when its window has room. */
  lemma OneGrant(l: Limiter, states: seq<State>, events: seq<Event>, t: real)
    returns (states': seq<State>, events': seq<Event>)
    requires 0 < l.limit && 0 < l.window && Run(l, states, events) && PunctualUntil(l, states, events, |events|)
    requires states[|events|].now <= t && InWindow(states[|events|].grants, t.Floor, l.window) < l.limit
    ensures Run(l, states', events') && PunctualUntil(l, states', events', |events'|)
    ensures states'[|events'|].grants == states[|events|].grants + [t] && states'[|events'|].now == t
  {
    var s, e := states[|events|], Grant(t.Floor, t, t.Floor, seq(l.window, _ => t), t);
    RunKeeps(l, states, events, |events|);
    LimitExactly(l, states, events, |events|);
    GrantDecides(l, s, e);
    Extend(l, states, events, e);
    states', events' := states + [Apply(l, s, e)], events + [e];
    forall i | 0 <= i < |events'| ensures PunctualAt(l, states', events', i) {
      assert StepAt(l, states', events', i);
      assert i < |events| ==> PunctualAt(l, states, events, i);
    }
  }

  lemma {:induction false} AllIn(grants: seq<real>, t: real, second: int, n: nat)
    requires forall i :: 0 <= i < |grants| ==> grants[i] == t
    ensures InWindow(grants, second, n) == if second - n < t.Floor <= second then |grants| else 0
  {
    if grants == [] {
      NothingGranted(second, n);
    } else {
      var rest := grants[..|grants| - 1];
      assert grants == rest + [t];
      AllIn(rest, t, second, n);
      OneMore(rest, t, second, n);
    }
  }

  lemma {:induction false} AllSpanned(grants: seq<real>, t: real, from: real, length: real)
    requires forall i :: 0 <= i < |grants| ==> grants[i] == t
    requires from <= t <= from + length
    ensures Spanned(grants, from, length) == |grants|
  {
    if grants != [] {
      AllSpanned(grants[..|grants| - 1], t, from, length);
    }
  }

  /** Any longer stretch can see more: `limit` grants at the end of one second,
      and one more when that second has just left the window. */
  lemma LongerSpanFails(l: Limiter, length: real) returns (states: seq<State>, events: seq<Event>, from: real)
    requires 0 < l.limit && 0 < l.window && length > (l.window - 1) as real
    ensures Run(l, states, events) && PunctualUntil(l, states, events, |events|)
    ensures Spanned(states[|events|].grants, from, length) > l.limit
  {
    var slack := length - (l.window - 1) as real;
    from := if slack < 1.0 then 1.0 - slack else 0.0;
    states, events := FillFirstSecond(l, from, l.limit);
    var grants, t := states[|events|].grants, l.window as real;
    AllIn(grants, from, l.window, l.window);
    states, events := OneGrant(l, states, events, t);
    AllSpanned(grants, from, from, length);
    assert (grants + [t])[..|grants|] == grants;
  }

  // ----- an acquisition that straddles two seconds

  /** One acquisition whose counter is that of second 0, and whose other clock
      readings are 1.0. */
  lemma FirstStraddles(l: Limiter) returns (states: seq<State>, events: seq<Event>)
    requires 0 < l.limit && 0 < l.window
    ensures Run(l, states, events)
    ensures var s := states[|events|];
            s.now == 1.0 && s.grants == [1.0] && Inv(l, s) && Exact(l, State(s.db, [0.5], s.now))
  {
    StartExact(l);
    var zero, grant := AddZero(0, 0.5, 0.5), Grant(0, 0.5, 1, seq(l.window, _ => 1.0), 1.0);
    var s0 := Apply(l, START, zero);
    StepExactly(l, START, zero);
    InvKeeps(l, START, zero);
    SumReads(l, s0, 1, l.window, grant.at);
    NothingGranted(1, l.window);
    var s1 := Apply(l, s0, grant);
    states, events := [START, s0, s1], [zero, grant];
    assert StepAt(l, states, events, 0) && StepAt(l, states, events, 1);
    InvKeeps(l, s0, grant);
    ShadowExact(l, s0, s1);
  }

  /** It leaves the table as an ordinary grant at 0.5 would, but for the expiry. */
  lemma ShadowExact(l: Limiter, s0: State, s1: State)
    requires 0 < l.limit && 0 < l.window
    requires s0 == Apply(l, START, AddZero(0, 0.5, 0.5))
    requires s1.now == 1.0 && s1.db == Stored(s0.db, Second(l.name, 0), 1, Ttl(l), 1.0)
    ensures Exact(l, State(s1.db, [0.5], s1.now))
  {
    assert Seconds(Ttl(l)) == l.window as real;
    var s := State(s1.db, [0.5], s1.now);
    assert [0.5][..0] == [];
    forall k ensures CounterExact(l, s, k) {
      assert Granted([], k) == 0;
    }
    forall k ensures InWindow(s.grants, k, l.window) <= l.limit {
      NothingGranted(k, l.window);
      OneMore([], 0.5, k, l.window);
      assert [] + [0.5] == s.grants;
    }
  }

  lemma SameResult(l: Limiter, s: State, w: State, e: Event)
    requires s.db == w.db && (e.Grant? ==> |e.at| == l.window)
    ensures Result(l, s, e) == Result(l, w, e)
  {
  }

  /** An acquisition at one instant is granted if the shadow's window has room. */
  lemma ShadowGrant(l: Limiter, s: State, shadow: seq<real>, t: real) returns (e: Event)
    requires 0 < l.limit && 0 < l.window && s.now <= t
    requires Inv(l, State(s.db, shadow, s.now)) && Exact(l, State(s.db, shadow, s.now))
    requires InWindow(shadow, t.Floor, l.window) < l.limit
    ensures Enabled(l, s, e)
    ensures var s' := Apply(l, s, e);
            && s'.grants == s.grants + [t] && s'.now == t
            && Inv(l, State(s'.db, shadow + [t], t)) && Exact(l, State(s'.db, shadow + [t], t))
    ensures InWindow(shadow + [t], t.Floor, l.window) == InWindow(shadow, t.Floor, l.window) + 1
    ensures InWindow(s.grants + [t], t.Floor, l.window) == InWindow(s.grants, t.Floor, l.window) + 1
  {
    e := Grant(t.Floor, t, t.Floor, seq(l.window, _ => t), t);
    var w := State(s.db, shadow, s.now);
    SameResult(l, s, w, e);
    hide Inv, Exact, InWindow, Result;
    GrantDecides(l, w, e);
    StepExactly(l, w, e);
    InvKeeps(l, w, e);
    OneMore(shadow, t, t.Floor, l.window);
    OneMore(s.grants, t, t.Floor, l.window);
  }

  /** Ordinary grants `n` times at time `window`, after the straddling one.  The
      counters are exact for `shadow`, where the straddling grant was at 0.5. */
  lemma {:induction false} FillWindow(l: Limiter, n: nat)
    returns (states: seq<State>, events: seq<Event>, shadow: seq<real>)
    requires 0 < l.limit && 0 < l.window && n <= l.limit
    ensures Run(l, states, events)
    ensures var s := states[|events|];
            && Inv(l, State(s.db, shadow, s.now)) && Exact(l, State(s.db, shadow, s.now)) && s.now <= l.window as real
            && InWindow(shadow, l.window, l.window) == n
            && InWindow(s.grants, l.window, l.window) == n + 1
  {
    if n == 0 {
      states, events := FirstStraddles(l);
      shadow := [0.5];
      ShadowInv(l, states[|events|]);
      NothingGranted(l.window, l.window);
      OneMore([], 0.5, l.window, l.window);
      OneMore([], 1.0, l.window, l.window);
      assert [] + [0.5] == [0.5] && [] + [1.0] == [1.0];
    } else {
      states, events, shadow := FillWindow(l, n - 1);
      hide Inv, Exact, Steps, Enabled, Apply, InWindow;
      var s, t := states[|events|], l.window as real;
      var e := ShadowGrant(l, s, shadow, t);
      Extend(l, states, events, e);
      states, events, shadow := states + [Apply(l, s, e)], events + [e], shadow + [t];
    }
  }

  lemma ShadowInv(l: Limiter, s: State)
    requires Inv(l, s) && s.now == 1.0
    ensures Inv(l, State(s.db, [0.5], s.now))
  {
    assert [0.5][..0] == [];
    assert forall k :: Granted([], k) == 0;
  }

  /** For every limiter there is a run in which one grant straddles two seconds
      and a window of whole seconds sees one grant too many. */
  lemma StraddlingBreaksLimit(l: Limiter) returns (states: seq<State>, events: seq<Event>)
    requires 0 < l.limit && 0 < l.window
    ensures Run(l, states, events)
    ensures InWindow(states[|events|].grants, l.window, l.window) == l.limit + 1
  {
    var shadow;
    states, events, shadow := FillWindow(l, l.limit);
  }
}
