/** Workers on top of the script: whatever the interleaving, and wherever
    workers stop, an unfinished message always has a live copy. */
module NoLoss {
  import opened Keyspace
  import opened DispatchSpec
  import opened Lifecycle

  /** The broker calls that handling one delivered message makes, in order. */
  datatype BrokerCall =
    | Send(messageId: nat, queue: Queue)
    | AckCall(id: Id)
    | NackCall(id: Id)

  /** A message that succeeded or was skipped is acked, a failed one nacked. */
  function Settle(m: Message, failed: bool): seq<BrokerCall> {
    [if failed then NackCall(m.redisId) else AckCall(m.redisId)]
  }

  /** A delay hand-off or a retry: first a copy, then the ack.  (A message that
      had been failed before its retry was decided is nacked.) */
  function HandOff(m: Message, q: Queue, delayed: bool, failed: bool): seq<BrokerCall> {
    [Send(m.messageId, Queue(q.name, delayed))] + Settle(m, failed)
  }

  /** The programs with which a worker may handle a message. */
  ghost predicate Accepted(m: Message, q: Queue, handOff: bool, program: seq<BrokerCall>) {
    if handOff then exists delayed, failed :: program == HandOff(m, q, delayed, failed)
    else exists failed :: program == Settle(m, failed)
  }

  /** A stored copy of a logical message, and the queue name it lives under. */
  datatype Copy = Copy(message: Message, name: string)

  /** A worker handling copy number `copy`, with the broker calls still to make. */
  datatype Task = Task(worker: Worker, queue: Queue, copy: nat, handOff: bool, todo: seq<BrokerCall>)

  datatype World = World(sys: Sys, copies: seq<Copy>, tasks: map<nat, Task>, done: set<nat>)

  datatype Action =
    | Submit(call: Call)
    | Begin(t: nat, task: Task)
    | Continue(t: nat, call: Call)
    | Stop(stopped: set<nat>)
    | Other(call: Call)

  // ----- steps

  function CopyOf(call: Call): Copy
    requires call.command.Enqueue? && call.command.data.Encoded?
  {
    Copy(call.command.data.message, call.queue.name)
  }

  predicate Newest(copies: seq<Copy>, i: nat)
    requires i < |copies|
  {
    forall j :: i < j < |copies| ==> copies[j].message.messageId != copies[i].message.messageId
  }

  /** The messages of the copies that this step removed from their queue. */
  function Lost(copies: seq<Copy>, st: Statuses, st': Statuses): set<nat> {
    set i | 0 <= i < |copies|
            && StatusOf(st, copies[i].message.redisId).Live() && !StatusOf(st', copies[i].message.redisId).Live()
      :: copies[i].message.messageId
  }

  ghost predicate Sends(call: Call, messageId: nat) {
    && call.command.Enqueue? && call.command.data.Encoded?
    && call.command.data.message == Message(messageId, call.command.id)
  }

  /** The messages of which this step removed the newest copy. */
  function LostForGood(copies: seq<Copy>, st: Statuses, st': Statuses): set<nat> {
    set i | 0 <= i < |copies| && Newest(copies, i)
            && StatusOf(st, copies[i].message.redisId).Live() && !StatusOf(st', copies[i].message.redisId).Live()
      :: copies[i].message.messageId
  }

  /** A client submits a new logical message. */
  ghost predicate Submits(w: World, call: Call, w': World) {
    && call.command.Enqueue? && call.command.data.Encoded?
    && Sends(call, call.command.data.message.messageId)
    && (forall i :: 0 <= i < |w.copies| ==> w.copies[i].message.messageId != call.command.data.message.messageId)
    && Step(w.sys, call, w'.sys)
    && w' == w.(sys := w'.sys, copies := w.copies + [CopyOf(call)])
  }

  /** A worker decides how to handle a copy it was given at some time. */
  ghost predicate Begins(w: World, t: nat, task: Task, w': World) {
    && t !in w.tasks && task.copy < |w.copies|
    && var copy := w.copies[task.copy];
    && task.queue.name == copy.name
    && Accepted(copy.message, task.queue, task.handOff, task.todo)
    && w' == w.(tasks := w.tasks[t := task])
  }

  /** A worker makes the next of its broker calls.  A settled message is done
      when the call took effect.  If the reply to an ack or nack is lost, the
      same call is still to be made. */
  ghost predicate Continues(w: World, t: nat, call: Call, w': World) {
    && t in w.tasks && w.tasks[t].todo != []
    && var task := w.tasks[t];
    && call.worker == task.worker
    && Step(w.sys, call, w'.sys)
    && (w'.tasks == w.tasks[t := task.(todo := task.todo[1..])] || (!task.todo[0].Send? && w'.tasks == w.tasks))
    && match task.todo[0]
       case Send(messageId, queue) =>
         && call.queue == queue && Sends(call, messageId)
         && w'.copies == w.copies + [CopyOf(call)] && w'.done == w.done
       case AckCall(id) =>
         && call.queue == task.queue && call.command == Ack(id)
         && w'.copies == w.copies
         && w'.done == if task.handOff then w.done else w.done + Lost(w.copies, w.sys.st, w'.sys.st)
       case NackCall(id) =>
         && call.queue == task.queue && call.command == Nack(id)
         && w'.copies == w.copies
         && w'.done == if task.handOff then w.done else w.done + Lost(w.copies, w.sys.st, w'.sys.st)
  }

  /** Fetches, requeues, size queries and purges, by anyone at any time.  A
      purge gives up the messages whose newest copy it removes. */
  ghost predicate Others(w: World, call: Call, w': World) {
    && !call.command.Enqueue? && !call.command.Ack? && !call.command.Nack?
    && Step(w.sys, call, w'.sys)
    && w' == w.(sys := w'.sys, done := w.done + LostForGood(w.copies, w.sys.st, w'.sys.st))
  }

  ghost predicate Next(w: World, a: Action, w': World) {
    match a
    case Submit(call) => Submits(w, call, w')
    case Begin(t, task) => Begins(w, t, task, w')
    case Continue(t, call) => Continues(w, t, call, w')
    case Stop(stopped) => w' == w.(tasks := w.tasks - stopped)
    case Other(call) => Others(w, call, w')
  }

  // ----- the invariant: the newest copy of an unfinished message is live

  ghost predicate CopyInv(st: Statuses, copies: seq<Copy>, done: set<nat>, i: nat)
    requires i < |copies|
  {
    var copy := copies[i];
    var s := StatusOf(st, copy.message.redisId);
    && copy.message.redisId in st
    && (s.Live() ==> s.queue.name == copy.name)
    && (Newest(copies, i) && copy.message.messageId !in done ==> s.Live())
  }

  ghost predicate TaskInv(copies: seq<Copy>, task: Task) {
    && task.copy < |copies|
    && var copy := copies[task.copy];
    && task.queue.name == copy.name
    && (task.handOff && |task.todo| == 1 ==> !Newest(copies, task.copy))
    && (task.todo == []
        || Accepted(copy.message, task.queue, task.handOff, task.todo)
        || Accepted(copy.message, task.queue, false, task.todo))
  }

  ghost predicate SameNames(copies: seq<Copy>) {
    forall i, j :: 0 <= i < |copies| && 0 <= j < |copies|
                   && copies[i].message.messageId == copies[j].message.messageId
      ==> copies[i].name == copies[j].name
  }

  ghost predicate DistinctCopies(copies: seq<Copy>) {
    forall i, j :: 0 <= i < j < |copies| ==> copies[i].message.redisId != copies[j].message.redisId
  }

  ghost predicate Inv(w: World) {
    && Agree(w.sys.db, w.sys.st)
    && DistinctCopies(w.copies) && SameNames(w.copies)
    && (forall i :: 0 <= i < |w.copies| ==> CopyInv(w.sys.st, w.copies, w.done, i))
    && (forall t :: t in w.tasks ==> TaskInv(w.copies, w.tasks[t]))
  }

  /** A live message leaves its queue by its own ack or nack, or by a purge. */
  ghost predicate Leaves(call: Call, id: Id, s: Status, s': Status) {
    && Allowed(s, s')
    && (s.Live() && !s'.Live() ==> call.command == Ack(id) || call.command == Nack(id) || call.command.Purge?)
    && (!s.Live() ==> !s'.Live())
  }

  lemma MovesLeave(s: Status, db: Db, mid: Db, call: Call, id: Id)
    requires AgreeOn(mid, id, TidiedOn(s, db, call))
    requires call.command.Enqueue? ==> id != call.command.id
    ensures Leaves(call, id, s, MovedOn(mid, call, id, TidiedOn(s, db, call)))
  {
    assert OnQueue(At(mid.queues, call.queue), call.queue, id, TidiedOn(s, db, call));
  }

  lemma StepLeaves(s: Sys, call: Call, s': Sys, id: Id)
    requires Agree(s.db, s.st) && Step(s, call, s') && id in s.st
    ensures id in s'.st && Leaves(call, id, StatusOf(s.st, id), StatusOf(s'.st, id))
  {
    var mid :| StepVia(s, call, mid, s');
    var t := StepOn(s, call, mid, s', id);
    MovesLeave(StatusOf(s.st, id), Beat(s.db, call), mid, call, id);
  }

  lemma StepEnqueues(s: Sys, call: Call, s': Sys)
    requires Agree(s.db, s.st) && Step(s, call, s') && call.command.Enqueue?
    ensures call.command.id !in s.st && call.command.id in s'.st
    ensures StatusOf(s'.st, call.command.id) == Queued(call.queue)
  {
    var mid :| StepVia(s, call, mid, s');
  }

  // ----- each step keeps the invariant

  /** Every earlier copy fares the same way in any step. */
  lemma CopyStep(w: World, call: Call, w': World, i: nat)
    requires Agree(w.sys.db, w.sys.st) && Step(w.sys, call, w'.sys)
    requires i < |w.copies| <= |w'.copies| && w.copies == w'.copies[..|w.copies|] && w.done <= w'.done
    requires CopyInv(w.sys.st, w.copies, w.done, i)
    requires var id := w.copies[i].message.redisId;
             StatusOf(w.sys.st, id).Live() && !StatusOf(w'.sys.st, id).Live()
             ==> !Newest(w'.copies, i) || w.copies[i].message.messageId in w'.done
    ensures CopyInv(w'.sys.st, w'.copies, w'.done, i)
  {
    StepLeaves(w.sys, call, w'.sys, w.copies[i].message.redisId);
    assert w'.copies[i] == w.copies[i];
    assert !Newest(w.copies, i) ==> !Newest(w'.copies, i);
  }

  lemma TaskStep(copies: seq<Copy>, copies': seq<Copy>, task: Task)
    requires TaskInv(copies, task)
    requires |copies| <= |copies'| && copies == copies'[..|copies|]
    ensures TaskInv(copies', task)
  {
    assert copies'[task.copy] == copies[task.copy];
    if !Newest(copies, task.copy) {
      var j :| task.copy < j < |copies| && copies[j].message.messageId == copies[task.copy].message.messageId;
      assert copies'[j] == copies[j];
    }
  }

  lemma NewCopy(w: World, call: Call, w': World)
    requires Inv(w) && call.command.Enqueue? && call.command.data.Encoded?
    requires Sends(call, call.command.data.message.messageId)
    requires Step(w.sys, call, w'.sys) && w'.copies == w.copies + [CopyOf(call)] && w'.done == w.done
    requires forall i :: 0 <= i < |w.copies| && w.copies[i].message.messageId == call.command.data.message.messageId
               ==> w.copies[i].name == call.queue.name
    ensures Agree(w'.sys.db, w'.sys.st) && DistinctCopies(w'.copies) && SameNames(w'.copies)
    ensures forall i :: 0 <= i < |w'.copies| ==> CopyInv(w'.sys.st, w'.copies, w'.done, i)
  {
    StepRefines(w.sys, call, w'.sys);
    StepEnqueues(w.sys, call, w'.sys);
    forall i | 0 <= i < |w.copies|
      ensures CopyInv(w'.sys.st, w'.copies, w'.done, i) && w.copies[i].message.redisId != call.command.id
    {
      assert CopyInv(w.sys.st, w.copies, w.done, i);
      StepLeaves(w.sys, call, w'.sys, w.copies[i].message.redisId);
      CopyStep(w, call, w', i);
    }
  }

  lemma SubmitKeeps(w: World, call: Call, w': World)
    requires Inv(w) && Submits(w, call, w')
    ensures Inv(w')
  {
    NewCopy(w, call, w');
    forall t | t in w'.tasks ensures TaskInv(w'.copies, w'.tasks[t]) {
      TaskStep(w.copies, w'.copies, w.tasks[t]);
    }
  }

  lemma OtherKeeps(w: World, call: Call, w': World)
    requires Inv(w) && Others(w, call, w')
    ensures Inv(w')
  {
    StepRefines(w.sys, call, w'.sys);
    forall i | 0 <= i < |w.copies| ensures CopyInv(w'.sys.st, w'.copies, w'.done, i) {
      assert CopyInv(w.sys.st, w.copies, w.done, i);
      CopyStep(w, call, w', i);
    }
  }

  /** A worker's own ack or nack: the copy is superseded, or done. */
  lemma SettleCopy(w: World, t: nat, call: Call, w': World, i: nat)
    requires Agree(w.sys.db, w.sys.st) && DistinctCopies(w.copies) && i < |w.copies|
    requires Continues(w, t, call, w') && !w.tasks[t].todo[0].Send? && TaskInv(w.copies, w.tasks[t])
    requires CopyInv(w.sys.st, w.copies, w.done, i)
    ensures CopyInv(w'.sys.st, w'.copies, w'.done, i)
  {
    var copy := w.tasks[t].copy;
    StepLeaves(w.sys, call, w'.sys, w.copies[i].message.redisId);
    assert i != copy ==> w.copies[i].message.redisId != w.copies[copy].message.redisId;
    CopyStep(w, call, w', i);
  }

  lemma SettleTasks(w: World, t: nat, call: Call, w': World)
    requires forall u :: u in w.tasks ==> TaskInv(w.copies, w.tasks[u])
    requires Continues(w, t, call, w') && !w.tasks[t].todo[0].Send?
    ensures w'.copies == w.copies && forall u :: u in w'.tasks ==> TaskInv(w'.copies, w'.tasks[u])
  {
    assert TaskInv(w.copies, w.tasks[t]);
  }

  lemma SettleKeeps(w: World, t: nat, call: Call, w': World)
    requires Inv(w) && Continues(w, t, call, w') && !w.tasks[t].todo[0].Send?
    ensures Inv(w')
  {
    hide Agree, CopyInv, TaskInv, DistinctCopies, SameNames, Step;
    StepRefines(w.sys, call, w'.sys);
    SettleTasks(w, t, call, w');
    assert TaskInv(w.copies, w.tasks[t]);
    forall i | 0 <= i < |w.copies| ensures CopyInv(w'.sys.st, w'.copies, w'.done, i) {
      SettleCopy(w, t, call, w', i);
    }
  }

  lemma SendKeeps(w: World, t: nat, call: Call, w': World)
    requires Inv(w) && Continues(w, t, call, w') && w.tasks[t].todo[0].Send?
    ensures Inv(w')
  {
    var task := w.tasks[t];
    assert TaskInv(w.copies, task);
    NewCopy(w, call, w');
    forall u | u in w'.tasks ensures TaskInv(w'.copies, w'.tasks[u]) {
      TaskStep(w.copies, w'.copies, w.tasks[u]);
      if u == t {
        assert w'.copies[|w.copies|] == CopyOf(call);
      }
    }
  }

  lemma NextKeeps(w: World, a: Action, w': World)
    requires Inv(w) && Next(w, a, w')
    ensures Inv(w')
  {
    match a
    case Submit(call) => SubmitKeeps(w, call, w');
    case Begin(_, _) =>
    case Continue(t, call) =>
      if w.tasks[t].todo[0].Send? { SendKeeps(w, t, call, w'); } else { SettleKeeps(w, t, call, w'); }
    case Stop(_) =>
    case Other(call) => OtherKeeps(w, call, w');
  }

  // ----- runs

  ghost predicate History(worlds: seq<World>, actions: seq<Action>) {
    && |worlds| == |actions| + 1
    && worlds[0] == World(EMPTY, [], map[], {})
    && forall i :: 0 <= i < |actions| ==> NextAt(worlds, actions, i)
  }

  ghost predicate NextAt(worlds: seq<World>, actions: seq<Action>, i: nat)
    requires |worlds| == |actions| + 1 && i < |actions|
  {
    Next(worlds[i], actions[i], worlds[i + 1])
  }

  lemma {:induction false} HistoryKeeps(worlds: seq<World>, actions: seq<Action>, i: nat)
    requires History(worlds, actions) && i < |worlds|
    ensures Inv(worlds[i])
  {
    hide Next;
    if i > 0 {
      HistoryKeeps(worlds, actions, i - 1);
      assert NextAt(worlds, actions, i - 1);
      NextKeeps(worlds[i - 1], actions[i - 1], worlds[i]);
    }
  }

  lemma {:induction false} NewestExists(copies: seq<Copy>, i: nat) returns (j: nat)
    requires i < |copies|
    ensures i <= j < |copies| && Newest(copies, j)
    ensures copies[j].message.messageId == copies[i].message.messageId
    decreases |copies| - i
  {
    if Newest(copies, i) {
      j := i;
    } else {
      var k :| i < k < |copies| && copies[k].message.messageId == copies[i].message.messageId;
      j := NewestExists(copies, k);
    }
  }

  /** Some copy of the message is stored on the queue or its delay queue, and
      is listed there or leased by a worker. */
  ghost predicate Surviving(w: World, messageId: nat, name: string) {
    exists id, q ::
      && id in At(w.sys.db.queues, q).msgs && q.name == name
      && (exists j :: 0 <= j < |w.copies| && w.copies[j].message == Message(messageId, id))
      && (id in At(w.sys.db.queues, q).list || exists v :: id in Leases(At(w.sys.db.queues, q).acks, v))
  }

  /** No message is lost.  At every point of every history, wherever workers
      have stopped, each submitted message that was not effectively settled and
      not purged still has a copy to be processed. */
  lemma NothingIsLost(worlds: seq<World>, actions: seq<Action>, n: nat, i: nat)
    requires History(worlds, actions) && n < |worlds| && i < |worlds[n].copies|
    requires worlds[n].copies[i].message.messageId !in worlds[n].done
    ensures Surviving(worlds[n], worlds[n].copies[i].message.messageId, worlds[n].copies[i].name)
  {
    var w := worlds[n];
    HistoryKeeps(worlds, actions, n);
    var j := NewestExists(w.copies, i);
    assert CopyInv(w.sys.st, w.copies, w.done, j);
    var id := w.copies[j].message.redisId;
    var s := StatusOf(w.sys.st, id);
    assert AgreeOn(w.sys.db, id, s);
    assert OnQueue(At(w.sys.db.queues, s.queue), s.queue, id, s);
    assert w.copies[j].message == Message(w.copies[i].message.messageId, id);
    assert s.Leased? ==> id in Leases(At(w.sys.db.queues, s.queue).acks, s.worker);
  }

  /** So `join` cannot return while a message on the queue is unfinished, not
      even between the two calls of a hand-off. */
  lemma JoinWaits(worlds: seq<World>, actions: seq<Action>, n: nat, i: nat, v: Worker)
    requires History(worlds, actions) && n < |worlds| && i < |worlds[n].copies|
    requires worlds[n].copies[i].message.messageId !in worlds[n].done
    ensures QueueSize(worlds[n].sys.db, v, worlds[n].copies[i].name) > 0
  {
    NothingIsLost(worlds, actions, n, i);
    var w, name := worlds[n], worlds[n].copies[i].name;
    var id, q :| id in At(w.sys.db.queues, q).msgs && q.name == name;
    assert q == Queue(name, false) || q == Queue(name, true);
    assert |At(w.sys.db.queues, q).msgs| > 0;
  }

  /** A message becomes done in one way only: a copy of it leaves its queue, by an
      ack or nack that hands nothing off, from the worker whose task settles that
      copy, or by a purge of the queue with its newest copy. */
  lemma DoneForAReason(w: World, a: Action, w': World, messageId: nat) returns (i: nat)
    requires Inv(w) && Next(w, a, w') && messageId in w'.done && messageId !in w.done
    ensures a.Continue? || a.Other?
    ensures i < |w.copies| && w.copies[i].message.messageId == messageId
    ensures StatusOf(w.sys.st, w.copies[i].message.redisId).Live()
    ensures !StatusOf(w'.sys.st, w.copies[i].message.redisId).Live()
    ensures a.Continue? ==>
              && a.t in w.tasks && !w.tasks[a.t].handOff && a.call.worker == w.tasks[a.t].worker
              && (a.call.command == Ack(w.copies[i].message.redisId)
                  || a.call.command == Nack(w.copies[i].message.redisId))
    ensures a.Other? ==> a.call.command.Purge? && Newest(w.copies, i)
  {
    hide Agree, Step, DistinctCopies, SameNames, TaskInv, Accepted;
    var call := a.call;
    i :| 0 <= i < |w.copies| && w.copies[i].message.messageId == messageId
         && StatusOf(w.sys.st, w.copies[i].message.redisId).Live()
         && !StatusOf(w'.sys.st, w.copies[i].message.redisId).Live()
         && (a.Other? ==> Newest(w.copies, i));
    assert CopyInv(w.sys.st, w.copies, w.done, i);
    StepLeaves(w.sys, call, w'.sys, w.copies[i].message.redisId);
  }

  // ----- attempts at broker calls

  /** One attempt at a broker call.  A call that is made may go unanswered. */
  datatype Attempt = Attempt(call: BrokerCall, made: bool, answered: bool)

  /** What these attempts leave of a program.  An ack or nack is repeated until
      it is answered; an enqueue is not repeated.  None if the attempts do not
      follow the program. */
  function Left(program: seq<BrokerCall>, attempts: seq<Attempt>): Option<seq<BrokerCall>> {
    if attempts == [] then Some(program)
    else
      var a, rest := attempts[0], attempts[1..];
      if a.call.Send? && !a.made then Left(program, rest)
      else if program == [] || program[0] != a.call then None
      else if a.call.Send? || (a.made && a.answered) then Left(program[1..], rest)
      else Left(program, rest)
  }

  ghost predicate Makes(call: Call, task: Task, b: BrokerCall) {
    && call.worker == task.worker
    && match b
       case Send(messageId, queue) => call.queue == queue && Sends(call, messageId)
       case AckCall(id) => call.queue == task.queue && call.command == Ack(id)
       case NackCall(id) => call.queue == task.queue && call.command == Nack(id)
  }

  /** Attempts that follow the program of a task are steps of a history: each
      one that is made is one, and the others still follow what it leaves. */
  lemma AttemptIsStep(w: World, t: nat, attempts: seq<Attempt>, call: Call, s': Sys) returns (w': World)
    requires t in w.tasks && attempts != [] && Left(w.tasks[t].todo, attempts).Some?
    requires attempts[0].made ==> Makes(call, w.tasks[t], attempts[0].call) && Step(w.sys, call, s')
    ensures if attempts[0].made then w'.sys == s' && Continues(w, t, call, w') else w' == w
    ensures t in w'.tasks && Left(w'.tasks[t].todo, attempts[1..]) == Left(w.tasks[t].todo, attempts)
  {
    var task, a := w.tasks[t], attempts[0];
    if !a.made {
      w' := w;
    } else {
      var todo := if a.call.Send? || a.answered then task.todo[1..] else task.todo;
      var tasks := if a.call.Send? || a.answered then w.tasks[t := task.(todo := todo)] else w.tasks;
      match a.call
      case Send(_, _) => w' := World(s', w.copies + [CopyOf(call)], tasks, w.done);
      case _ =>
        w' := World(s', w.copies, tasks,
                    if task.handOff then w.done else w.done + Lost(w.copies, w.sys.st, s'.st));
    }
  }
}
