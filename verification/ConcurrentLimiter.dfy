/** The concurrent rate limiter over any interleaving of its clients. */
module ConcurrentLimiter {
  import opened Backend

  datatype Limiter = Limiter(key: Key, limit: int, ttl: int)

  /** `holders` maps the clients that hold a slot to the time they got it;
      `waiting` clients have been refused by `add` and will try `incr`.  The
      counter was last written at `wrote`. */
  datatype State = State(db: Table, holders: map<nat, real>, waiting: set<nat>, wrote: real, now: real)

  datatype Event =
    | TryAdd(client: nat, get: real, put: real)
    | TryIncr(client: nat, get: real, put: real)
    | Release(client: nat, get: real, put: real)

  function Result(l: Limiter, s: State, e: Event): Outcome {
    match e
    case TryAdd(_, get, put) => Add(s.db, l.key, 1, l.ttl, get, put)
    case TryIncr(_, get, put) => Incr(s.db, l.key, 1, l.limit, l.ttl, get, put)
    case Release(_, get, put) => Decr(s.db, l.key, 1, 0, l.ttl, get, put)
  }

  function Apply(l: Limiter, s: State, e: Event): State {
    var o := Result(l, s, e);
    var wrote := if o.ok then e.put else s.wrote;
    match e
    case TryAdd(c, _, put) =>
      if o.ok then State(o.table, s.holders[c := put], s.waiting, wrote, put)
      else State(o.table, s.holders, s.waiting + {c}, wrote, put)
    case TryIncr(c, _, put) =>
      State(o.table, if o.ok then s.holders[c := put] else s.holders, s.waiting - {c}, wrote, put)
    case Release(c, _, put) => State(o.table, s.holders - {c}, s.waiting, wrote, put)
  }

  /** A client asks only when it neither holds a slot nor is asking for one
      already, and releases only a slot it holds. */
  predicate Enabled(s: State, e: Event) {
    && s.now <= e.get <= e.put
    && match e
       case TryAdd(c, _, _) => c !in s.holders && c !in s.waiting
       case TryIncr(c, _, _) => c !in s.holders && c in s.waiting
       case Release(c, _, _) => c in s.holders
  }

  // ----- the exact condition

  /** What holds of every reachable state. */
  ghost predicate Inv(l: Limiter, s: State) {
    && 0.0 <= s.now
    && (forall c :: c in s.holders ==> s.holders[c] <= s.wrote)
    && (l.key in s.db ==> s.db[l.key].expiry == s.wrote + Seconds(l.ttl))
  }

  /** The counter is the number of holders, and at most `limit`. */
  ghost predicate Exact(l: Limiter, s: State) {
    && (if l.key in s.db then s.db[l.key].value == |s.holders| else s.holders == map[])
    && |s.holders| <= l.limit
  }

  /** Nobody holds a slot, or the counter was written less than a time-to-live
      ago. */
  predicate InTime(l: Limiter, s: State, e: Event) {
    s.holders == map[] || e.get < s.wrote + Seconds(l.ttl)
  }

  lemma Grow(m: map<nat, real>, c: nat, t: real)
    requires c !in m
    ensures |m[c := t]| == |m| + 1
  {
    assert m[c := t].Keys == m.Keys + {c};
  }

  lemma Shrink(m: map<nat, real>, c: nat)
    requires c in m
    ensures |m - {c}| == |m| - 1
  {
    assert (m - {c}).Keys == m.Keys - {c};
  }

  lemma Nobody(m: map<nat, real>)
    ensures |m| == 0 <==> m == map[]
  {
    assert |m| == |m.Keys|;
  }

  /** What the counter reads. */
  lemma Reads(l: Limiter, s: State, e: Event)
    requires Inv(l, s) && Exact(l, s) && Enabled(s, e)
    ensures Fresh(s.db, l.key, e.get) <==> l.key in s.db && e.get < s.wrote + Seconds(l.ttl)
    ensures Value(s.db, l.key, e.get) == if InTime(l, s, e) then |s.holders| else 0
    ensures !InTime(l, s, e) ==> 0 < |s.holders|
  {
    Nobody(s.holders);
  }

  lemma InvKeeps(l: Limiter, s: State, e: Event)
    requires Inv(l, s) && Enabled(s, e) && s.wrote <= s.now
    ensures Inv(l, Apply(l, s, e)) && Apply(l, s, e).wrote <= Apply(l, s, e).now
  {
  }

  lemma AddExactly(l: Limiter, s: State, e: Event)
    requires e.TryAdd? && 0 < l.limit && Inv(l, s) && Exact(l, s) && Enabled(s, e)
    ensures Exact(l, Apply(l, s, e)) <==> InTime(l, s, e)
    ensures InTime(l, s, e) && Result(l, s, e).ok ==> s.holders == map[]
  {
    Reads(l, s, e);
    Nobody(s.holders);
    hide Inv, InTime, Fresh;
    Grow(s.holders, e.client, e.put);
  }

  lemma IncrExactly(l: Limiter, s: State, e: Event)
    requires e.TryIncr? && 0 < l.limit && Inv(l, s) && Exact(l, s) && Enabled(s, e)
    ensures Exact(l, Apply(l, s, e)) <==> InTime(l, s, e)
    ensures InTime(l, s, e) ==> (Result(l, s, e).ok <==> |s.holders| < l.limit)
  {
    Reads(l, s, e);
    Nobody(s.holders);
    hide Inv, InTime, Fresh, Value;
    Grow(s.holders, e.client, e.put);
  }

  lemma ReleaseExactly(l: Limiter, s: State, e: Event)
    requires e.Release? && 0 < l.limit && Inv(l, s) && Exact(l, s) && Enabled(s, e)
    ensures Exact(l, Apply(l, s, e)) <==> InTime(l, s, e)
    ensures InTime(l, s, e) ==> Result(l, s, e).ok
  {
    Reads(l, s, e);
    Nobody(s.holders - {e.client});
    hide Inv, InTime, Fresh, Value;
    Shrink(s.holders, e.client);
  }

  /** A step keeps the counter exact, and the limit, exactly if it is in time.
      It then lets a client in exactly if there is room, and never refuses a
      release. */
  lemma StepExactly(l: Limiter, s: State, e: Event)
    requires 0 < l.limit && Inv(l, s) && Exact(l, s) && Enabled(s, e)
    ensures Exact(l, Apply(l, s, e)) <==> InTime(l, s, e)
    ensures InTime(l, s, e) && e.TryAdd? && Result(l, s, e).ok ==> s.holders == map[]
    ensures InTime(l, s, e) && e.TryIncr? ==> (Result(l, s, e).ok <==> |s.holders| < l.limit)
    ensures InTime(l, s, e) && e.Release? ==> Result(l, s, e).ok
  {
    hide Inv, Exact, Enabled, Apply, InTime, Result;
    match e
    case TryAdd(_, _, _) => AddExactly(l, s, e);
    case TryIncr(_, _, _) => IncrExactly(l, s, e);
    case Release(_, _, _) => ReleaseExactly(l, s, e);
  }

  // ----- runs

  const START := State(map[], map[], {}, 0.0, 0.0)

  ghost predicate Run(l: Limiter, states: seq<State>, events: seq<Event>) {
    && |states| == |events| + 1
    && states[0] == START
    && forall i :: 0 <= i < |events| ==> StepAt(l, states, events, i)
  }

  ghost predicate StepAt(l: Limiter, states: seq<State>, events: seq<Event>, i: nat)
    requires |states| == |events| + 1 && i < |events|
  {
    Enabled(states[i], events[i]) && states[i + 1] == Apply(l, states[i], events[i])
  }

  lemma {:induction false} RunKeeps(l: Limiter, states: seq<State>, events: seq<Event>, i: nat)
    requires Run(l, states, events) && i < |states|
    ensures Inv(l, states[i]) && states[i].wrote <= states[i].now
  {
    if i > 0 {
      RunKeeps(l, states, events, i - 1);
      assert StepAt(l, states, events, i - 1);
      InvKeeps(l, states[i - 1], events[i - 1]);
    }
  }

  /** Over every interleaving the counter has been the number of holders, and at
      most `limit`, exactly if every operation made while somebody held a slot
      came within a time-to-live of the last write. */
  lemma {:induction false} LimitExactly(l: Limiter, states: seq<State>, events: seq<Event>, n: nat)
    requires 0 < l.limit && Run(l, states, events) && n < |states|
    ensures (forall i :: 0 <= i <= n ==> Exact(l, states[i]))
            <==> forall i :: 0 <= i < n ==> InTime(l, states[i], events[i])
  {
    hide Exact, InTime, Enabled, Apply;
    if n == 0 {
      StartExact(l);
    } else {
      LimitExactly(l, states, events, n - 1);
      RunKeeps(l, states, events, n - 1);
      assert StepAt(l, states, events, n - 1);
      if Exact(l, states[n - 1]) {
        StepExactly(l, states[n - 1], events[n - 1]);
      }
    }
  }

  lemma StartExact(l: Limiter)
    requires 0 < l.limit
    ensures Exact(l, START)
  {
  }

  /** Nobody has held a slot for as long as the time-to-live. */
  ghost predicate Timely(l: Limiter, s: State, e: Event) {
    forall c :: c in s.holders ==> e.get < s.holders[c] + Seconds(l.ttl)
  }

  lemma TimelyIsInTime(l: Limiter, s: State, e: Event)
    requires Inv(l, s) && Timely(l, s, e)
    ensures InTime(l, s, e)
  {
    if s.holders != map[] {
      var c :| c in s.holders;
    }
  }

  /** So it is enough that holders release within the time-to-live. */
  lemma NeverOverLimit(l: Limiter, states: seq<State>, events: seq<Event>, n: nat)
    requires 0 < l.limit && Run(l, states, events) && n < |states|
    requires forall i :: 0 <= i < n ==> Timely(l, states[i], events[i])
    ensures Exact(l, states[n])
  {
    forall i | 0 <= i < n ensures InTime(l, states[i], events[i]) {
      RunKeeps(l, states, events, i);
      TimelyIsInTime(l, states[i], events[i]);
    }
    LimitExactly(l, states, events, n);
  }

  // ----- what happens otherwise

  lemma Extend(l: Limiter, states: seq<State>, events: seq<Event>, e: Event)
    requires Run(l, states, events) && Enabled(states[|events|], e)
    ensures Run(l, states + [Apply(l, states[|events|], e)], events + [e])
  {
    var states', events' := states + [Apply(l, states[|events|], e)], events + [e];
    forall i | 0 <= i < |events'| ensures StepAt(l, states', events', i) {
      if i < |events| {
        assert StepAt(l, states, events, i);
      }
    }
  }

  /** Client 0 still holds its slot at the time-to-live, and `n` more got in. */
  ghost predicate Crowded(l: Limiter, s: State, n: nat) {
    && s.now == Seconds(l.ttl) && s.waiting == {}
    && l.key in s.db && s.db[l.key] == Cell(n, 2.0 * Seconds(l.ttl))
    && |s.holders| == n + 1 && forall c: nat :: c in s.holders <==> c <= n
  }

  lemma FirstTwo(l: Limiter) returns (states: seq<State>, events: seq<Event>)
    requires 0 < l.limit && 0 < l.ttl
    ensures Run(l, states, events) && Crowded(l, states[|events|], 1)
  {
    var t := Seconds(l.ttl);
    var first, second := TryAdd(0, 0.0, 0.0), TryAdd(1, t, t);
    var s1 := Apply(l, START, first);
    var s2 := Apply(l, s1, second);
    Grow(START.holders, 0, 0.0);
    Grow(s1.holders, 1, t);
    assert s2.holders.Keys == {0, 1};
    states, events := [START, s1, s2], [first, second];
    assert StepAt(l, states, events, 0) && StepAt(l, states, events, 1);
  }

  lemma OneMore(l: Limiter, s: State, n: nat)
    requires Crowded(l, s, n) && 0 < l.ttl && n < l.limit
    ensures var t := Seconds(l.ttl);
            var add, incr := TryAdd(n + 1, t, t), TryIncr(n + 1, t, t);
            && Enabled(s, add) && Enabled(Apply(l, s, add), incr)
            && Crowded(l, Apply(l, Apply(l, s, add), incr), n + 1)
  {
    Grow(s.holders, n + 1, Seconds(l.ttl));
    assert s.waiting + {n + 1} - {n + 1} == {};
  }

  lemma {:induction false} Crowd(l: Limiter, n: nat) returns (states: seq<State>, events: seq<Event>)
    requires 0 < n <= l.limit && 0 < l.ttl
    ensures Run(l, states, events) && Crowded(l, states[|events|], n)
  {
    if n == 1 {
      states, events := FirstTwo(l);
    } else {
      states, events := Crowd(l, n - 1);
      hide Run, Enabled, Apply, Crowded;
      var s, t := states[|events|], Seconds(l.ttl);
      var add, incr := TryAdd(n, t, t), TryIncr(n, t, t);
      OneMore(l, s, n - 1);
      Extend(l, states, events, add);
      states, events := states + [Apply(l, s, add)], events + [add];
      Extend(l, states, events, incr);
      states, events := states + [Apply(l, Apply(l, s, add), incr)], events + [incr];
    }
  }

  /** For every limiter there is a run in which one holder overstays and one
      client too many gets in. */
  lemma Overstaying(l: Limiter) returns (states: seq<State>, events: seq<Event>)
    requires 0 < l.limit && 0 < l.ttl
    ensures Run(l, states, events) && |states[|events|].holders| == l.limit + 1
  {
    states, events := Crowd(l, l.limit);
  }
}
