/** The retry loops make progress: every watch failure is paid for by another
    client's commit, so finitely many calls fail finitely often. */
module LockFreedom {
  import opened Backend
  import opened Optimistic

  /** All calls are `incr` or `decr` on one key, which is live whenever set. */
  ghost predicate OneKey(s: Sys, key: Key) {
    && (forall c :: c in s.clients ==> s.clients[c].op.key == key && !s.clients[c].op.kind.SumUp?)
    && (key in s.db ==> Fresh(s.db, key, s.now))
  }

  function Active(s: Sys): set<nat> {
    set c | c in s.clients && !s.clients[c].Finished?
  }

  /** Clients whose watched key has been written since they looked. */
  function Stale(s: Sys, key: Key): set<nat> {
    set c | c in s.clients && (s.clients[c].Watching? || s.clients[c].Writing?)
            && key in s.clients[c].seen && s.clients[c].seen[key].version != Version(s, key)
  }

  predicate Fails(a: Action, s': Sys) {
    a.Exec? && a.c in s'.clients && s'.clients[a.c].Idle?
  }

  /** Watch failures, and commands of clients, among the first `n` actions. */
  function Failures(states: seq<Sys>, actions: seq<Action>, n: nat): nat
    requires |states| == |actions| + 1 && n <= |actions|
  {
    if n == 0 then 0
    else Failures(states, actions, n - 1) + if Fails(actions[n - 1], states[n]) then 1 else 0
  }

  function Commands(actions: seq<Action>): nat {
    if actions == [] then 0
    else Commands(actions[..|actions| - 1]) + if actions[|actions| - 1].Tick? then 0 else 1
  }

  /** Action `i` is an EXEC that sends its client back to the start. */
  predicate FailsAt(states: seq<Sys>, actions: seq<Action>, i: nat)
    requires |states| == |actions| + 1 && i < |actions|
    ensures FailsAt(states, actions, i) <==>
            actions[i].Exec? && actions[i].c in states[i + 1].clients && states[i + 1].clients[actions[i].c].Idle?
  {
    Fails(actions[i], states[i + 1])
  }

  lemma {:induction false} FailuresAreCounted(states: seq<Sys>, actions: seq<Action>, n: nat)
    requires |states| == |actions| + 1 && n <= |actions|
    ensures Failures(states, actions, n) == |set i | 0 <= i < n && FailsAt(states, actions, i)|
  {
    var failed := set i | 0 <= i < n && FailsAt(states, actions, i);
    if n == 0 {
      assert failed == {};
    } else {
      FailuresAreCounted(states, actions, n - 1);
      var fewer := set i | 0 <= i < n - 1 && FailsAt(states, actions, i);
      assert failed == fewer + if FailsAt(states, actions, n - 1) then {n - 1} else {};
    }
  }

  lemma {:induction false} CommandsAreCounted(actions: seq<Action>)
    ensures Commands(actions) == |set i | 0 <= i < |actions| && !actions[i].Tick?|
  {
    var commands := set i | 0 <= i < |actions| && !actions[i].Tick?;
    if actions == [] {
      assert commands == {};
    } else {
      var front := actions[..|actions| - 1];
      CommandsAreCounted(front);
      var fewer := set i | 0 <= i < |front| && !front[i].Tick?;
      assert commands == fewer + if actions[|front|].Tick? then {} else {|front|};
    }
  }

  function Pairs(n: nat): nat {
    if n == 0 then 0 else Pairs(n - 1) + (n - 1)
  }

  lemma {:induction false} PairsIs(n: nat)
    ensures 2 * Pairs(n) == n * (n - 1)
  {
    if n > 0 {
      PairsIs(n - 1);
    }
  }

  ghost predicate SeenInv(s: Sys, key: Key) {
    forall c :: c in s.clients && (s.clients[c].Watching? || s.clients[c].Writing?) ==>
      var seen := s.clients[c].seen;
      seen.Keys == {key} && (seen[key].version == Version(s, key) && seen[key].live ==> key in s.db)
  }

  // ----- each command, against the potential

  lemma Without(a: set<nat>, b: set<nat>, c: nat)
    requires c in a && b <= a - {c}
    ensures |b| <= |a| - 1
  {
    Subset(b, a - {c});
  }

  lemma {:induction false} Subset(a: set<nat>, b: set<nat>)
    requires a <= b
    ensures |a| <= |b|
  {
    if a != {} {
      var x :| x in a;
      Subset(a - {x}, b - {x});
    }
  }

  function Debt(s: Sys, key: Key): nat {
    |Stale(s, key)| + Pairs(|Active(s)|)
  }

  lemma {:induction false} PairsGrow(m: nat, n: nat)
    requires m <= n
    ensures Pairs(m) <= Pairs(n)
  {
    if m < n {
      PairsGrow(m, n - 1);
    }
  }

  lemma WatchPays(s: Sys, a: Action, s': Sys, key: Key)
    requires Next(s, a, s') && a.Watch?
    ensures Debt(s', key) <= Debt(s, key)
  {
    forall c | c in Stale(s', key) ensures c in Stale(s, key) {
      assert c != a.c;
    }
    Subset(Stale(s', key), Stale(s, key));
    assert Active(s') == Active(s);
  }

  lemma TickPays(s: Sys, a: Action, s': Sys, key: Key)
    requires Next(s, a, s') && a.Tick?
    ensures Debt(s', key) == Debt(s, key)
  {
    assert s'.clients == s.clients && s'.versions == s.versions;
    assert forall c :: c in Stale(s', key) <==> c in Stale(s, key);
    assert Stale(s', key) == Stale(s, key);
    assert Active(s') == Active(s);
  }

  lemma OnlyThese(s: Sys, a: Action, s': Sys, key: Key)
    requires Next(s, a, s') && OneKey(s, key)
    ensures a.Tick? || a.Watch? || a.Exec? || (a.Read? && !s.clients[a.c].op.kind.SumUp?)
  {
  }

  lemma ReadPays(s: Sys, a: Action, s': Sys, key: Key)
    requires Next(s, a, s') && a.Read?
    ensures Debt(s', key) <= Debt(s, key)
  {
    Subset(Stale(s', key), Stale(s, key));
    Subset(Active(s'), Active(s));
    PairsGrow(|Active(s')|, |Active(s)|);
  }

  /** A commit makes at most all remaining clients stale, which the pairs that
      it removes pay for. */
  lemma CommitPays(s: Sys, a: Action, s': Sys, key: Key)
    requires Next(s, a, s') && a.Exec? && !Fails(a, s')
    ensures Debt(s', key) <= Debt(s, key)
  {
    assert s'.clients[a.c].Finished?;
    Without(Active(s), Active(s'), a.c);
    Subset(Stale(s', key), Active(s'));
    PairsGrow(|Active(s')| + 1, |Active(s)|);
  }

  /** A failure uses up a stale watch. */
  lemma FailurePays(s: Sys, a: Action, s': Sys, key: Key)
    requires Next(s, a, s') && OneKey(s, key) && SeenInv(s, key) && a.Exec? && Fails(a, s')
    ensures Debt(s', key) + 1 <= Debt(s, key)
  {
    assert !Intact(s, s.clients[a.c].seen);
    assert a.c in Stale(s, key);
    Without(Stale(s, key), Stale(s', key), a.c);
    assert Active(s') == Active(s);
  }

  lemma DebtPays(s: Sys, a: Action, s': Sys, key: Key)
    requires Next(s, a, s') && OneKey(s, key) && SeenInv(s, key)
    ensures Debt(s', key) + (if Fails(a, s') then 1 else 0) <= Debt(s, key)
  {
    OnlyThese(s, a, s', key);
    hide Debt;
    if a.Tick? {
      TickPays(s, a, s', key);
    } else if a.Exec? {
      if Fails(a, s') { FailurePays(s, a, s', key); } else { CommitPays(s, a, s', key); }
    } else if a.Read? {
      ReadPays(s, a, s', key);
    } else {
      WatchPays(s, a, s', key);
    }
  }

  lemma SeenKeeps(s: Sys, a: Action, s': Sys, key: Key)
    requires Next(s, a, s') && OneKey(s, key) && SeenInv(s, key)
    ensures SeenInv(s', key)
  {
  }

  lemma {:induction false} FailuresPaid(states: seq<Sys>, actions: seq<Action>, key: Key, n: nat)
    requires Run(states, actions) && n <= |actions|
    requires forall i :: 0 <= i < |states| ==> OneKey(states[i], key)
    ensures SeenInv(states[n], key)
    ensures Failures(states, actions, n) + Debt(states[n], key) <= Pairs(|states[0].clients|)
  {
    if n == 0 {
      assert Active(states[0]) == states[0].clients.Keys;
      assert Stale(states[0], key) == {};
    } else {
      FailuresPaid(states, actions, key, n - 1);
      assert NextAt(states, actions, n - 1);
      assert OneKey(states[n - 1], key);
      DebtPays(states[n - 1], actions[n - 1], states[n], key);
      SeenKeeps(states[n - 1], actions[n - 1], states[n], key);
    }
  }

  /** In any run of n calls on a key that does not expire there are at most
      n(n-1)/2 watch failures in total. */
  lemma FailuresBounded(states: seq<Sys>, actions: seq<Action>, key: Key)
    requires Run(states, actions)
    requires forall i :: 0 <= i < |states| ==> OneKey(states[i], key)
    ensures var n, failed := |states[0].clients|, set i | 0 <= i < |actions| && FailsAt(states, actions, i);
            2 * |failed| <= n * (n - 1)
  {
    FailuresAreCounted(states, actions, |actions|);
    FailuresPaid(states, actions, key, |actions|);
    PairsIs(|states[0].clients|);
  }

  // ----- and so every loop ends

  function Started(s: Sys): set<nat> { set c | c in s.clients && !s.clients[c].Idle? }

  function Loaded(s: Sys): set<nat> { set c | c in s.clients && (s.clients[c].Writing? || s.clients[c].Finished?) }

  function Done(s: Sys): set<nat> { set c | c in s.clients && s.clients[c].Finished? }

  function Progress(s: Sys): nat { |Started(s)| + |Loaded(s)| + |Done(s)| }

  lemma WatchProgresses(s: Sys, a: Action, s': Sys)
    requires Next(s, a, s') && a.Watch?
    ensures Progress(s') == Progress(s) + 1
  {
    assert Started(s') == Started(s) + {a.c};
    assert Loaded(s') == Loaded(s);
    assert Done(s') == Done(s);
  }

  lemma ReadProgresses(s: Sys, a: Action, s': Sys)
    requires Next(s, a, s') && a.Read? && !s.clients[a.c].op.kind.SumUp?
    ensures Progress(s') >= Progress(s) + 1
  {
    assert Started(s') == Started(s);
    assert Loaded(s') == Loaded(s) + {a.c};
    assert Done(s') == if s'.clients[a.c].Finished? then Done(s) + {a.c} else Done(s);
  }

  lemma FailureRegresses(s: Sys, a: Action, s': Sys)
    requires Next(s, a, s') && a.Exec? && Fails(a, s')
    ensures Progress(s') == Progress(s) - 2
  {
    assert Started(s') == Started(s) - {a.c};
    assert Loaded(s') == Loaded(s) - {a.c};
    assert Done(s') == Done(s);
  }

  lemma CommitProgresses(s: Sys, a: Action, s': Sys)
    requires Next(s, a, s') && a.Exec? && !Fails(a, s')
    ensures Progress(s') == Progress(s) + 1
  {
    assert s'.clients[a.c].Finished?;
    assert Started(s') == Started(s);
    assert Loaded(s') == Loaded(s);
    assert Done(s') == Done(s) + {a.c};
  }

  /** Every command but a failing EXEC moves one client forward. */
  lemma CommandProgresses(s: Sys, a: Action, s': Sys, key: Key)
    requires Next(s, a, s') && OneKey(s, key)
    ensures Progress(s') + (if Fails(a, s') then 3 else 0) >= Progress(s) + if a.Tick? then 0 else 1
  {
    if a.Tick? {
      assert s'.clients == s.clients;
      assert Progress(s') == Progress(s);
    } else {
      OnlyThese(s, a, s', key);
      hide Progress;
      if a.Watch? {
        WatchProgresses(s, a, s');
      } else if a.Exec? {
        if Fails(a, s') { FailureRegresses(s, a, s'); } else { CommitProgresses(s, a, s'); }
      } else {
        ReadProgresses(s, a, s');
      }
    }
  }

  lemma {:induction false} CommandsCounted(states: seq<Sys>, actions: seq<Action>, key: Key, n: nat)
    requires Run(states, actions) && n <= |actions|
    requires forall i :: 0 <= i < |states| ==> OneKey(states[i], key)
    ensures states[n].clients.Keys == states[0].clients.Keys
    ensures Commands(actions[..n]) <= Progress(states[n]) + 3 * Failures(states, actions, n)
  {
    if n > 0 {
      CommandsCounted(states, actions, key, n - 1);
      assert NextAt(states, actions, n - 1);
      assert OneKey(states[n - 1], key);
      assert actions[..n][..n - 1] == actions[..n - 1];
      CommandProgresses(states[n - 1], actions[n - 1], states[n], key);
    }
  }

  /** n calls are over after at most 3(n + n(n-1)/2) commands altogether. */
  lemma CallsEnd(states: seq<Sys>, actions: seq<Action>, key: Key)
    requires Run(states, actions)
    requires forall i :: 0 <= i < |states| ==> OneKey(states[i], key)
    ensures var n, commands := |states[0].clients|, set i | 0 <= i < |actions| && !actions[i].Tick?;
            2 * |commands| <= 3 * n * (n + 1)
  {
    CommandsAreCounted(actions);
    FailuresAreCounted(states, actions, |actions|);
    var n, last := |states[0].clients|, states[|actions|];
    CommandsCounted(states, actions, key, |actions|);
    assert actions[..|actions|] == actions;
    FailuresBounded(states, actions, key);
    Subset(Started(last), last.clients.Keys);
    Subset(Loaded(last), last.clients.Keys);
    Subset(Done(last), last.clients.Keys);
    CallArithmetic(n, Failures(states, actions, |actions|), Commands(actions));
  }

  lemma CallArithmetic(n: nat, failures: nat, commands: nat)
    requires 2 * failures <= n * (n - 1) && commands <= 3 * n + 3 * failures
    ensures 2 * commands <= 3 * n * (n + 1)
  {
    assert 3 * (n * (n - 1)) + 6 * n == 3 * n * (n + 1);
  }
}
