/** The window limiter on the Redis backend: any number of acquisitions as
    interleaved optimistic transactions. */
module RedisWindow {
  import opened Backend
  import O = Optimistic
  import W = WindowLimiter

  /** An acquisition whose counter is that of `second`, and which computes its
      keys in second `first` for WATCH and in second `last` for MGET.  A failed
      attempt leaves no trace, so these are the seconds of the last one. */
  function Acquisition(l: W.Limiter, second: int, first: int, last: int): O.Op {
    O.Op(O.SumUp(Keys(l.name, first, l.window), Keys(l.name, last, l.window)),
         Second(l.name, second), 1, l.limit, W.Ttl(l))
  }

  ghost predicate Acquires(l: W.Limiter, op: O.Op, second: int, first: int, last: int) {
    op == Acquisition(l, second, first, last) && second <= first <= last
  }

  ghost predicate AllAcquire(l: W.Limiter, s: O.Sys) {
    forall c :: c in s.clients ==> exists second, first, last :: Acquires(l, s.clients[c].op, second, first, last)
  }

  /** Action `i` commits an acquisition: the time is that of the grant. */
  predicate Commits(states: seq<O.Sys>, actions: seq<O.Action>, i: nat)
    requires |states| == |actions| + 1 && i < |actions|
  {
    var a, s' := actions[i], states[i + 1];
    a.Exec? && a.c in s'.clients && s'.clients[a.c].Finished? && s'.clients[a.c].ok
  }

  function Grants(states: seq<O.Sys>, actions: seq<O.Action>, n: nat): seq<real>
    requires |states| == |actions| + 1 && n <= |actions|
  {
    if n == 0 then []
    else Grants(states, actions, n - 1) + if Commits(states, actions, n - 1) then [states[n - 1].now] else []
  }

  /** A commit comes after the clock readings of its client. */
  ghost predicate InOrder(l: W.Limiter, states: seq<O.Sys>, actions: seq<O.Action>, i: nat)
    requires |states| == |actions| + 1 && i < |actions|
  {
    Commits(states, actions, i) && actions[i].c in states[i].clients ==>
      forall second, first, last ::
        Acquires(l, states[i].clients[actions[i].c].op, second, first, last) ==> last <= states[i].now.Floor
  }

  ghost predicate Run(l: W.Limiter, states: seq<O.Sys>, actions: seq<O.Action>) {
    && O.Run(states, actions)
    && states[0].db == map[] && 0.0 <= states[0].now && AllAcquire(l, states[0])
    && forall i :: 0 <= i < |actions| ==> InOrder(l, states, actions, i)
  }

  /** The commit comes in the second of its counter. */
  predicate Punctual(states: seq<O.Sys>, actions: seq<O.Action>, i: nat)
    requires |states| == |actions| + 1 && i < |actions|
  {
    Commits(states, actions, i) && actions[i].c in states[i].clients && states[i].clients[actions[i].c].op.key.Second?
    ==> states[i].now.Floor == states[i].clients[actions[i].c].op.key.second
  }

  /** What the window limiter's machine sees of the server. */
  ghost function Seen(states: seq<O.Sys>, actions: seq<O.Action>, i: nat): W.State
    requires |states| == |actions| + 1 && i < |states|
  {
    W.State(states[i].db, Grants(states, actions, i), states[i].now)
  }

  lemma {:induction false} RunKeeps(l: W.Limiter, states: seq<O.Sys>, actions: seq<O.Action>, i: nat)
    requires Run(l, states, actions) && i < |states|
    ensures AllAcquire(l, states[i]) && O.Inv(states[i]) && 0.0 <= states[i].now
  {
    O.RunKeeps(states, actions, i);
    if i > 0 {
      RunKeeps(l, states, actions, i - 1);
      assert O.NextAt(states, actions, i - 1);
      O.SameOps(states[i - 1], actions[i - 1], states[i]);
    }
  }

  /** A step that is no commit leaves the table alone. */
  lemma OthersLeaveTable(s: O.Sys, a: O.Action, s': O.Sys)
    requires O.Inv(s) && O.Next(s, a, s')
    requires !(a.Exec? && a.c in s'.clients && s'.clients[a.c].Finished? && s'.clients[a.c].ok)
    ensures s'.db == s.db && s.now <= s'.now
  {
  }

  /** A commit stores the counter of its second. */
  lemma CommitStores(l: W.Limiter, s: O.Sys, a: O.Action, s': O.Sys, second: int, first: int, last: int)
    requires O.Inv(s) && O.Next(s, a, s') && a.Exec? && s'.clients[a.c].Finished?
    requires Acquires(l, s.clients[a.c].op, second, first, last)
    ensures s'.now == s.now && exists value :: s'.db == Stored(s.db, Second(l.name, second), value, W.Ttl(l), s.now)
    ensures first == last == second ==>
              Outcome(true, s'.db)
              == IncrAndSum(s.db, Second(l.name, second), Keys(l.name, second, l.window), 1, l.limit, W.Ttl(l),
                            s.now, seq(l.window, _ => s.now), s.now)
  {
    O.StepRefines(s, a, s');
  }

  lemma PunctualCommit(l: W.Limiter, s: W.State, second: int, db': Table, grants': seq<real>)
    requires 0 < l.limit && 0 < l.window && W.Inv(l, s) && W.Exact(l, s) && s.now.Floor == second
    requires Outcome(true, db')
             == IncrAndSum(s.db, Second(l.name, second), Keys(l.name, second, l.window), 1, l.limit, W.Ttl(l),
                           s.now, seq(l.window, _ => s.now), s.now)
    requires grants' == s.grants + [s.now]
    ensures W.Exact(l, W.State(db', grants', s.now))
  {
    var e := W.Grant(second, s.now, second, seq(l.window, _ => s.now), s.now);
    W.StepExactly(l, s, e);
    assert W.Apply(l, s, e) == W.State(db', grants', s.now);
  }

  lemma FutureStays(l: W.Limiter, s: W.State, second: int, value: int, grants': seq<real>)
    requires W.Inv(l, s) && second <= s.now.Floor && (grants' == s.grants || grants' == s.grants + [s.now])
    ensures W.Inv(l, W.State(Stored(s.db, Second(l.name, second), value, W.Ttl(l), s.now), grants', s.now))
  {
    assert (s.grants + [s.now])[..|s.grants|] == s.grants;
  }

  lemma StepExactly(l: W.Limiter, states: seq<O.Sys>, actions: seq<O.Action>, i: nat)
    requires 0 < l.limit && 0 < l.window && Run(l, states, actions) && i < |actions|
    requires W.Inv(l, Seen(states, actions, i)) && W.Exact(l, Seen(states, actions, i))
    ensures W.Inv(l, Seen(states, actions, i + 1))
    ensures W.Exact(l, Seen(states, actions, i + 1)) <==> Punctual(states, actions, i)
  {
    hide W.Inv, W.Exact, O.Next, O.Inv, AllAcquire;
    RunKeeps(l, states, actions, i);
    assert O.NextAt(states, actions, i);
    var s, a, s' := states[i], actions[i], states[i + 1];
    var w, w' := Seen(states, actions, i), Seen(states, actions, i + 1);
    if !Commits(states, actions, i) {
      OthersLeaveTable(s, a, s');
      W.Ages(l, w, s'.now);
      assert w' == w.(now := s'.now);
    } else {
      var second, first, last := AcquisitionOf(l, s, a, s');
      assert InOrder(l, states, actions, i);
      CommitStores(l, s, a, s', second, first, last);
      var value :| s'.db == Stored(s.db, Second(l.name, second), value, W.Ttl(l), s.now);
      FutureStays(l, w, second, value, w'.grants);
      if s.now.Floor == second {
        PunctualCommit(l, w, second, s'.db, w'.grants);
      } else {
        W.LateIsInexact(l, w, w', second, s.now);
      }
    }
  }

  lemma AcquisitionOf(l: W.Limiter, s: O.Sys, a: O.Action, s': O.Sys) returns (second: int, first: int, last: int)
    requires AllAcquire(l, s) && O.Next(s, a, s') && a.Exec?
    ensures a.c in s.clients && Acquires(l, s.clients[a.c].op, second, first, last)
  {
    second, first, last :| Acquires(l, s.clients[a.c].op, second, first, last);
  }

  /** Over every interleaving of acquisitions on Redis the counters have been
      exact, and no window over its limit, exactly if every commit came in the
      second of its counter. */
  lemma {:induction false} LimitExactly(l: W.Limiter, states: seq<O.Sys>, actions: seq<O.Action>, n: nat)
    requires 0 < l.limit && 0 < l.window && Run(l, states, actions) && n < |states|
    ensures (forall i :: 0 <= i <= n ==> W.Exact(l, Seen(states, actions, i)))
            <==> forall i :: 0 <= i < n ==> Punctual(states, actions, i)
    ensures (forall i :: 0 <= i < n ==> Punctual(states, actions, i)) ==> W.Inv(l, Seen(states, actions, n))
  {
    if n == 0 {
      W.StartExact(l);
      W.Ages(l, W.START, states[0].now);
    } else {
      LimitExactly(l, states, actions, n - 1);
      hide W.Inv, W.Exact, Run, Punctual, Seen;
      if forall i :: 0 <= i < n - 1 ==> Punctual(states, actions, i) {
        StepExactly(l, states, actions, n - 1);
      }
    }
  }

  /** So the limit of every window holds on Redis, if no grant straddles. */
  lemma WindowHolds(l: W.Limiter, states: seq<O.Sys>, actions: seq<O.Action>, n: nat, second: int)
    requires 0 < l.limit && 0 < l.window && Run(l, states, actions) && n < |states|
    requires forall i :: 0 <= i < n ==> Punctual(states, actions, i)
    ensures W.InWindow(Grants(states, actions, n), second, l.window) <= l.limit
  {
    LimitExactly(l, states, actions, n);
    assert W.Exact(l, Seen(states, actions, n));
  }
}
