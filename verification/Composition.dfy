/** Pipelines and groups, built over messages whose option dictionaries are
    shared heap objects: linking writes through the sharing. */
module Composition {
  import opened Keyspace
  import Backend
  import Stub

  /** `group_completion_uuid` and `group_completion_callbacks`. */
  datatype Completion = Completion(uuid: string, callbacks: seq<nat>)

  /** The options dictionary of a message.  Of these entries only the target is
      ever assigned after the dictionary was made. */
  class Options {
    const ignore: bool
    const delay: Option<nat>
    const completion: Option<Completion>

    /** `pipe_target`: what `asdict` made of the next message. */
    var target: Option<Letter>

    constructor (ignore: bool, delay: Option<nat>, completion: Option<Completion>, target: Option<Letter>)
      ensures this.ignore == ignore && this.delay == delay
      ensures this.completion == completion && this.target == target
    {
      this.ignore, this.delay, this.completion, this.target := ignore, delay, completion, target;
    }
  }

  /** A message, or the dictionary that `asdict` makes of it: both hold the very
      same options object. */
  datatype Letter = Letter(actor: string, args: seq<nat>, kwargs: map<string, nat>, messageId: nat, options: Options)

  /** A message without its place in a pipeline. */
  datatype Stage = Stage(
    actor: string, args: seq<nat>, kwargs: map<string, nat>, messageId: nat,
    ignore: bool, delay: Option<nat>, completion: Option<Completion>)

  function StageOf(m: Letter): Stage {
    Stage(m.actor, m.args, m.kwargs, m.messageId, m.options.ignore, m.options.delay, m.options.completion)
  }

  /** A stage is all of a message but its target and its place in memory. */
  lemma StageTells(a: Letter, b: Letter)
    ensures StageOf(a) == StageOf(b) <==>
            && a.(options := b.options) == b && a.options.ignore == b.options.ignore
            && a.options.delay == b.options.delay && a.options.completion == b.options.completion
  {
  }

  /** `Message.copy`, with the completion options overridden if given. */
  method Copy(m: Letter, completion: Option<Completion>) returns (c: Letter)
    ensures fresh(c.options) && c == m.(options := c.options)
    ensures c.options.target == m.options.target
    ensures StageOf(c) == StageOf(m).(completion := if completion.Some? then completion else m.options.completion)
    ensures c.options.ignore == m.options.ignore && c.options.delay == m.options.delay
    ensures c.options.completion == if completion.Some? then completion else m.options.completion
  {
    var o := m.options;
    var options := new Options(
      o.ignore, o.delay, if completion.Some? then completion else o.completion, o.target);
    c := m.(options := options);
  }

  datatype Child = One(message: Letter) | Nested(pipeline: Pipeline)

  function PartOf(child: Child): seq<Letter> {
    if child.Nested? then child.pipeline.messages else [child.message]
  }

  ghost predicate PartsAre(children: seq<Child>, parts: seq<seq<Letter>>) {
    && |parts| == |children|
    && forall i :: 0 <= i < |children| ==>
         parts[i] == if children[i].Nested? then children[i].pipeline.messages else [children[i].message]
  }

  /** The messages of all children, child pipelines flattened. */
  function Flat(parts: seq<seq<Letter>>): seq<Letter> {
    if parts == [] then [] else Flat(parts[..|parts| - 1]) + parts[|parts| - 1]
  }

  /** Each message's `pipe_target` is the next message, options shared. */
  ghost predicate Linked(ms: seq<Letter>)
    reads set m | m in ms :: m.options
  {
    forall i :: 0 <= i < |ms| - 1 ==> ms[i].options.target == Some(ms[i + 1])
  }

  ghost predicate OwnOptions(ms: seq<Letter>) {
    forall i, j :: 0 <= i < j < |ms| ==> ms[i].options != ms[j].options
  }

  /** A copy has the fields and the stale target of the original. */
  ghost predicate CopyOf(c: Letter, m: Letter)
    reads c.options, m.options
  {
    StageOf(c) == StageOf(m) && c.options.target == m.options.target
  }

  lemma {:induction false} FlatPrefix(parts: seq<seq<Letter>>, i: nat)
    requires i <= |parts|
    ensures Flat(parts[..i]) <= Flat(parts)
    decreases |parts|
  {
    if i == |parts| {
      assert parts[..i] == parts;
    } else {
      var front := parts[..|parts| - 1];
      assert front[..i] == parts[..i];
      FlatPrefix(front, i);
    }
  }

  lemma NoParts(parts: seq<seq<Letter>>)
    ensures Flat(parts[..0]) == []
  {
  }

  lemma FlatNext(parts: seq<seq<Letter>>, i: nat, flat: seq<Letter>, n: nat)
    requires i < |parts| && n <= |flat| && flat == Flat(parts) && Flat(parts[..i]) == flat[..n]
    ensures n + |parts[i]| <= |flat| && Flat(parts[..i + 1]) == flat[..n + |parts[i]|]
    ensures forall k :: 0 <= k < |parts[i]| ==> flat[n + k] == parts[i][k]
  {
    assert parts[..i + 1][..i] == parts[..i];
    FlatPrefix(parts, i + 1);
  }

  ghost predicate CopiesSoFar(messages: seq<Letter>, flat: seq<Letter>)
    requires |messages| <= |flat|
    reads set m | m in messages :: m.options
    reads set m | m in flat :: m.options
  {
    OwnOptions(messages) && forall k :: 0 <= k < |messages| ==> CopyOf(messages[k], flat[k])
  }

  /** Appends copies of one child's messages. */
  method Append(messages: seq<Letter>, part: seq<Letter>, ghost flat: seq<Letter>) returns (more: seq<Letter>)
    requires |messages| + |part| <= |flat| && CopiesSoFar(messages, flat)
    requires forall k :: 0 <= k < |part| ==> flat[|messages| + k] == part[k]
    ensures messages <= more && |more| == |messages| + |part| && CopiesSoFar(more, flat)
    ensures forall k :: |messages| <= k < |more| ==> fresh(more[k].options)
  {
    more := messages;
    for j := 0 to |part|
      invariant messages <= more && |more| == |messages| + j && OwnOptions(more)
      invariant forall k :: |messages| <= k < |more| ==> fresh(more[k].options)
      invariant forall k :: 0 <= k < |more| ==> CopyOf(more[k], flat[k])
    {
      var c := Copy(part[j], None);
      more := more + [c];
    }
  }

  /** Fresh copies of the messages of all children, in order. */
  method Gather(children: seq<Child>, ghost parts: seq<seq<Letter>>, ghost flat: seq<Letter>)
    returns (messages: seq<Letter>)
    requires PartsAre(children, parts) && flat == Flat(parts)
    ensures |messages| == |flat| && CopiesSoFar(messages, flat)
    ensures forall k :: 0 <= k < |messages| ==> fresh(messages[k].options)
  {
    hide Flat;
    messages := [];
    NoParts(parts);
    for i := 0 to |children|
      invariant |messages| <= |flat| && Flat(parts[..i]) == flat[..|messages|]
      invariant CopiesSoFar(messages, flat)
      invariant forall k :: 0 <= k < |messages| ==> fresh(messages[k].options)
    {
      FlatNext(parts, i, flat, |messages|);
      assert PartOf(children[i]) == parts[i];
      messages := Append(messages, PartOf(children[i]), flat);
    }
    assert parts[..|parts|] == parts;
  }

  /** The forward linking loop. */
  method Link(ms: seq<Letter>)
    requires OwnOptions(ms)
    modifies set m | m in ms :: m.options
    ensures Linked(ms)
    ensures ms != [] ==> ms[|ms| - 1].options.target == old(ms[|ms| - 1].options.target)
  {
    var i := 0;
    while i < |ms| - 1
      invariant 0 <= i && (ms != [] ==> i <= |ms| - 1)
      invariant forall k :: 0 <= k < i && k < |ms| - 1 ==> ms[k].options.target == Some(ms[k + 1])
      invariant ms != [] ==> ms[|ms| - 1].options.target == old(ms[|ms| - 1].options.target)
    {
      ms[i].options.target := Some(ms[i + 1]);
      i := i + 1;
    }
  }

  class Pipeline {
    const messages: seq<Letter>

    /** Copies every message, then links each copy to the next.  Nothing that
        existed before is modified, and a target that the last message already
        had is kept. */
    constructor (children: seq<Child>, ghost parts: seq<seq<Letter>>, ghost flat: seq<Letter>)
      requires PartsAre(children, parts) && flat == Flat(parts)
      ensures forall i :: 0 <= i < |messages| ==> fresh(messages[i].options)
      ensures OwnOptions(messages) && Linked(messages)
      ensures |messages| == |flat|
      ensures forall i :: 0 <= i < |messages| ==> StageOf(messages[i]) == StageOf(flat[i])
      ensures flat != [] ==> messages[|flat| - 1].options.target == flat[|flat| - 1].options.target
    {
      var gathered := Gather(children, parts, flat);
      messages := gathered;
      new;
      Link(messages);
    }
  }

  // ----- what travels: encoding snapshots the whole chain of targets

  datatype Wire = Wire(stage: Stage, next: Option<Wire>)

  ghost predicate Encodes(m: Letter, w: Wire)
    reads *
    decreases w
  {
    && w.stage == StageOf(m)
    && (w.next.Some? <==> m.options.target.Some?)
    && (w.next.Some? ==> Encodes(m.options.target.value, w.next.value))
  }

  function Stages(w: Wire): (r: seq<Stage>)
    ensures r != [] && r[0] == w.stage
  {
    [w.stage] + if w.next.Some? then Stages(w.next.value) else []
  }

  /** The chain that message `i` of a pipeline encodes to is messages `i`, `i+1`
      and so on, and ends there exactly if the last message had no target. */
  lemma {:induction false} Unfolds(ms: seq<Letter>, i: nat, w: Wire)
    requires Linked(ms) && i < |ms| && Encodes(ms[i], w)
    ensures |ms| - i <= |Stages(w)|
    ensures forall k :: 0 <= k < |ms| - i ==> Stages(w)[k] == StageOf(ms[i + k])
    ensures |Stages(w)| == |ms| - i <==> ms[|ms| - 1].options.target.None?
    decreases |ms| - i
  {
    if i < |ms| - 1 {
      assert ms[i].options.target == Some(ms[i + 1]);
      Unfolds(ms, i + 1, w.next.value);
      forall k | 0 <= k < |ms| - i ensures Stages(w)[k] == StageOf(ms[i + k]) {
        if 0 < k {
          assert Stages(w)[k] == Stages(w.next.value)[k - 1];
        }
      }
    }
  }

  ghost predicate Encodable(m: Letter)
    reads *
  {
    exists w :: Encodes(m, w)
  }

  lemma {:induction false} EncodingOfLast(ms: seq<Letter>, i: nat, w: Wire) returns (last: Wire)
    requires Linked(ms) && i < |ms| && Encodes(ms[i], w)
    ensures Encodes(ms[|ms| - 1], last)
    decreases |ms| - i
  {
    if i == |ms| - 1 {
      last := w;
    } else {
      assert ms[i].options.target == Some(ms[i + 1]);
      last := EncodingOfLast(ms, i + 1, w.next.value);
    }
  }

  lemma {:induction false} EncodingFromLast(ms: seq<Letter>, i: nat, last: Wire) returns (w: Wire)
    requires Linked(ms) && i < |ms| && Encodes(ms[|ms| - 1], last)
    ensures Encodes(ms[i], w)
    decreases |ms| - i
  {
    if i == |ms| - 1 {
      w := last;
    } else {
      var next := EncodingFromLast(ms, i + 1, last);
      w := Wire(StageOf(ms[i]), Some(next));
    }
  }

  /** A message of the pipeline has an encoding exactly if the last message has
      one, as it always has without a target. */
  lemma EncodingExists(ms: seq<Letter>, i: nat)
    requires Linked(ms) && i < |ms|
    ensures Encodable(ms[i]) <==> Encodable(ms[|ms| - 1])
    ensures ms[|ms| - 1].options.target.None? ==> Encodable(ms[i])
  {
    var m := ms[|ms| - 1];
    if m.options.target.None? {
      assert Encodes(m, Wire(StageOf(m), None));
    }
    if Encodable(ms[i]) {
      var w :| Encodes(ms[i], w);
      var last := EncodingOfLast(ms, i, w);
    }
    if Encodable(m) {
      var last :| Encodes(m, last);
      var w := EncodingFromLast(ms, i, last);
    }
  }

  /** There is never more than one. */
  lemma {:induction false} EncodingUnique(m: Letter, v: Wire, w: Wire)
    requires Encodes(m, v) && Encodes(m, w)
    ensures v == w
    decreases v
  {
    if v.next.Some? {
      EncodingUnique(m.options.target.value, v.next.value, w.next.value);
    }
  }

  // ----- nesting is irrelevant

  function Singles(ms: seq<Letter>): seq<seq<Letter>> {
    seq(|ms|, i requires 0 <= i < |ms| => [ms[i]])
  }

  lemma {:induction false} FlatSingles(ms: seq<Letter>)
    ensures Flat(Singles(ms)) == ms
  {
    if ms != [] {
      var front := ms[..|ms| - 1];
      assert Singles(ms)[..|ms| - 1] == Singles(front);
      FlatSingles(front);
      assert ms == front + [ms[|ms| - 1]];
    }
  }

  function Ones(ms: seq<Letter>): seq<Child> {
    seq(|ms|, i requires 0 <= i < |ms| => One(ms[i]))
  }

  lemma OnesAreSingles(ms: seq<Letter>)
    ensures PartsAre(Ones(ms), Singles(ms)) && Flat(Singles(ms)) == ms
  {
    FlatSingles(ms);
  }

  lemma {:induction false} FlatAppend(a: seq<seq<Letter>>, b: seq<seq<Letter>>)
    ensures Flat(a + b) == Flat(a) + Flat(b)
  {
    if b == [] {
      assert a + b == a;
    } else {
      var front, last := b[..|b| - 1], b[|b| - 1];
      assert (a + b)[..|a + b| - 1] == a + front;
      FlatAppend(a, front);
      assert Flat(a) + (Flat(front) + last) == (Flat(a) + Flat(front)) + last;
    }
  }

  /** Replacing nested pipelines by their messages changes nothing. */
  lemma NestingIrrelevant(before: seq<seq<Letter>>, nested: seq<Letter>, after: seq<seq<Letter>>)
    ensures Flat(before + [nested] + after) == Flat(before + Singles(nested) + after)
  {
    FlatAppend(before + [nested], after);
    FlatAppend(before, [nested]);
    FlatAppend(before + Singles(nested), after);
    FlatAppend(before, Singles(nested));
    FlatSingles(nested);
    assert Flat([nested]) == Flat([]) + nested == nested;
  }

  lemma FlatWith(ms: seq<Letter>, other: Child)
    ensures PartsAre(Ones(ms) + [other], Singles(ms) + [PartOf(other)])
    ensures Flat(Singles(ms) + [PartOf(other)]) == ms + PartOf(other)
  {
    FlatSingles(ms);
    assert (Singles(ms) + [PartOf(other)])[..|ms|] == Singles(ms);
  }

  /** `__or__`: the pipeline's messages, then those of the other side. */
  method Or(p: Pipeline, other: Child) returns (r: Pipeline)
    ensures fresh(r) && OwnOptions(r.messages) && Linked(r.messages)
    ensures forall i :: 0 <= i < |r.messages| ==> fresh(r.messages[i].options)
    ensures var all := p.messages + if other.Nested? then other.pipeline.messages else [other.message];
            && |r.messages| == |all|
            && (forall i :: 0 <= i < |all| ==> StageOf(r.messages[i]) == StageOf(all[i]))
            && (all != [] ==> r.messages[|all| - 1].options.target == all[|all| - 1].options.target)
  {
    hide PartsAre, Flat, Ones, Singles;
    FlatWith(p.messages, other);
    r := new Pipeline(Ones(p.messages) + [other], Singles(p.messages) + [PartOf(other)], p.messages + PartOf(other));
  }

  // ----- running pipelines and groups

  datatype Sent = Sent(message: Letter, delay: Option<nat>)

  /** What has been handed to the broker. */
  class Outbox {
    var sent: seq<Sent>

    constructor ()
      ensures sent == []
    {
      sent := [];
    }

    method Enqueue(message: Letter, delay: Option<nat>)
      modifies this
      ensures sent == old(sent) + [Sent(message, delay)]
    {
      sent := sent + [Sent(message, delay)];
    }
  }

  datatype Error = IndexError | MissingMiddleware | NoParties

  datatype Result<T> = Ok(value: T) | Err(error: Error)

  /** The larger of two delays; absent, zero and none at all are one. */
  function Larger(a: Option<nat>, b: Option<nat>): (r: Option<nat>)
    ensures r.None? <==> (a.None? || a.value == 0) && (b.None? || b.value == 0)
    ensures r.Some? ==> (r == a || r == b) && (a.Some? ==> a.value <= r.value) && (b.Some? ==> b.value <= r.value)
  {
    var x, y := if a.Some? then a.value else 0, if b.Some? then b.value else 0;
    var m := if x < y then y else x;
    if m == 0 then None else Some(m)
  }

  /** `pipeline.run`: of all the messages only the first is enqueued. */
  method RunPipeline(p: Pipeline, delay: Option<nat>, outbox: Outbox) returns (error: Option<Error>)
    modifies outbox
    ensures error == if p.messages == [] then Some(IndexError) else None
    ensures outbox.sent == old(outbox.sent)
                           + if p.messages == [] then []
                             else [Sent(p.messages[0], Larger(delay, p.messages[0].options.delay))]
  {
    if p.messages == [] {
      return Some(IndexError);
    }
    outbox.Enqueue(p.messages[0], Larger(delay, p.messages[0].options.delay));
    error := None;
  }

  /** Each child is represented by its first message: a plain one with the delay
      that was asked for, that of a pipeline with the larger of the two delays. */
  ghost predicate Sends(children: seq<Child>, parts: seq<seq<Letter>>, delay: Option<nat>, sent: seq<Sent>)
    requires |children| == |parts|
  {
    && |sent| <= |parts|
    && forall i :: 0 <= i < |sent| ==>
         && parts[i] != [] && sent[i].message == parts[i][0]
         && sent[i].delay == if children[i].Nested? then Larger(delay, parts[i][0].options.delay) else delay
  }

  /** Enqueues the children in order, up to the first empty pipeline. */
  method RunAll(children: seq<Child>, ghost parts: seq<seq<Letter>>, delay: Option<nat>, outbox: Outbox)
    returns (error: Option<Error>, ghost sent: seq<Sent>)
    requires PartsAre(children, parts)
    modifies outbox
    ensures outbox.sent == old(outbox.sent) + sent && Sends(children, parts, delay, sent)
    ensures forall i :: 0 <= i < |sent| ==>
              && parts[i] != [] && sent[i].message == parts[i][0]
              && (children[i].One? ==> sent[i].delay == delay)
              && (children[i].Nested? ==> sent[i].delay == Larger(delay, parts[i][0].options.delay))
    ensures if error.None? then |sent| == |parts|
            else error.value == IndexError && |sent| < |parts| && parts[|sent|] == []
  {
    sent := [];
    for i := 0 to |children|
      invariant outbox.sent == old(outbox.sent) + sent && |sent| == i
      invariant forall j :: 0 <= j < i ==>
        && parts[j] != [] && sent[j].message == parts[j][0]
        && sent[j].delay == if children[j].Nested? then Larger(delay, parts[j][0].options.delay) else delay
    {
      var child := children[i];
      assert parts[i] == PartOf(child);
      if child.Nested? {
        error := RunPipeline(child.pipeline, delay, outbox);
        if error.Some? {
          return;
        }
      } else {
        outbox.Enqueue(child.message, delay);
      }
      sent := sent + [outbox.sent[|outbox.sent| - 1]];
    }
    error := None;
  }

  /** The stages of one member of a group, the last of them marked with the
      group's completion. */
  predicate MarkedStages(part: seq<Letter>, completion: Completion, chain: seq<Letter>) {
    && |chain| == |part| > 0
    && (forall k :: 0 <= k < |part| - 1 ==> StageOf(chain[k]) == StageOf(part[k]))
    && StageOf(chain[|part| - 1]) == StageOf(part[|part| - 1]).(completion := Some(completion))
  }

  predicate SameEnd(part: seq<Letter>, chain: seq<Letter>)
    requires part != [] && chain != []
    reads part[|part| - 1].options, chain[|chain| - 1].options
  {
    chain[|chain| - 1].options.target == part[|part| - 1].options.target
  }

  /** The chain that stands for one member of a group; `repr` has the options of
      both. */
  ghost predicate Member(part: seq<Letter>, completion: Completion, chain: seq<Letter>, repr: set<Options>)
    reads repr
  {
    && (forall m :: m in part + chain ==> m.options in repr)
    && MarkedStages(part, completion, chain) && Linked(chain) && SameEnd(part, chain)
  }

  method Mark(child: Child, completion: Completion) returns (r: Result<Child>, ghost repr: set<Options>)
    ensures r.Err? <==> PartOf(child) == []
    ensures r.Err? ==> r.error == IndexError
    ensures r.Ok? ==> Member(PartOf(child), completion, PartOf(r.value), repr) && (r.value.Nested? <==> child.Nested?)
    ensures r.Ok? ==> forall m :: m in PartOf(r.value) ==> fresh(m.options)
  {
    hide Flat, Singles, Ones, PartsAre;
    repr := set m | m in PartOf(child) :: m.options;
    if child.Nested? {
      var ms := child.pipeline.messages;
      if ms == [] {
        return Err(IndexError), repr;
      }
      var last := Copy(ms[|ms| - 1], Some(completion));
      var marked := ms[..|ms| - 1] + [last];
      OnesAreSingles(marked);
      var p := new Pipeline(Ones(marked), Singles(marked), marked);
      r := Ok(Nested(p));
    } else {
      var c := Copy(child.message, Some(completion));
      r := Ok(One(c));
    }
    repr := repr + set m | m in PartOf(r.value) :: m.options;
  }

  /** Every member of the group, marked once, at its end. */
  ghost predicate Members(children: seq<Child>, parts: seq<seq<Letter>>, completion: Completion,
                          marked: seq<Child>, chains: seq<seq<Letter>>, reprs: seq<set<Options>>)
    requires |children| == |parts|
    reads set repr, o | repr in reprs && o in repr :: o
  {
    && |marked| == |chains| == |reprs| == |parts|
    && forall i :: 0 <= i < |parts| ==>
         Member(parts[i], completion, chains[i], reprs[i]) && (marked[i].Nested? <==> children[i].Nested?)
  }

  method MarkAll(children: seq<Child>, ghost parts: seq<seq<Letter>>, completion: Completion)
    returns (r: Result<seq<Child>>, ghost chains: seq<seq<Letter>>, ghost reprs: seq<set<Options>>)
    requires PartsAre(children, parts)
    ensures r.Ok? ==> PartsAre(r.value, chains) && Members(children, parts, completion, r.value, chains, reprs)
    ensures r.Err? <==> exists i :: 0 <= i < |parts| && parts[i] == []
    ensures r.Err? ==> r.error == IndexError
  {
    hide Member;
    chains, reprs := [], [];
    var marked: seq<Child> := [];
    for i := 0 to |children|
      invariant PartsAre(marked, chains) && |marked| == |reprs| == i
      invariant forall j :: 0 <= j < i ==> parts[j] != [] && (marked[j].Nested? <==> children[j].Nested?)
      invariant forall j :: 0 <= j < i ==> Member(parts[j], completion, chains[j], reprs[j])
    {
      assert parts[i] == PartOf(children[i]);
      var one;
      ghost var repr;
      one, repr := Mark(children[i], completion);
      if one.Err? {
        return Err(IndexError), chains, reprs;
      }
      marked, chains, reprs := marked + [one.value], chains + [PartOf(one.value)], reprs + [repr];
    }
    r := Ok(marked);
  }

  /** What makes `group.run` fail, if anything. */
  ghost function GroupError(parts: seq<seq<Letter>>, callbacks: seq<nat>, installed: bool): Option<Error> {
    if callbacks != [] && !installed then Some(MissingMiddleware)
    else if callbacks != [] && parts == [] then Some(NoParties)
    else if exists i :: 0 <= i < |parts| && parts[i] == [] then Some(IndexError)
    else None
  }

  lemma ErrorMeans(parts: seq<seq<Letter>>, callbacks: seq<nat>, installed: bool)
    ensures var error := GroupError(parts, callbacks, installed);
            && (error == Some(MissingMiddleware) <==> callbacks != [] && !installed)
            && (error == Some(NoParties) <==> callbacks != [] && installed && parts == [])
            && (error == Some(IndexError) <==>
                  (callbacks == [] || installed) && exists i :: 0 <= i < |parts| && parts[i] == [])
  {
  }

  lemma NoEmptyChains(children: seq<Child>, parts: seq<seq<Letter>>, completion: Completion,
                      marked: seq<Child>, chains: seq<seq<Letter>>, reprs: seq<set<Options>>)
    requires |children| == |parts| && Members(children, parts, completion, marked, chains, reprs)
    ensures |marked| == |chains| == |parts|
    ensures forall i :: 0 <= i < |chains| ==> chains[i] != [] && (marked[i].Nested? <==> children[i].Nested?)
  {
  }

  /** The barrier of a group with completion callbacks, and its marked members. */
  method Complete(children: seq<Child>, ghost parts: seq<seq<Letter>>, completion: Completion,
                  installed: bool, backend: Stub.StubBackend, ttl: int)
    returns (r: Result<seq<Child>>, ghost chains: seq<seq<Letter>>, ghost reprs: seq<set<Options>>,
             ghost get: real, ghost put: real)
    requires PartsAre(children, parts) && completion.callbacks != []
    modifies backend`db, backend.clock
    ensures var error := GroupError(parts, completion.callbacks, installed);
            if error.Some? then r == Err(error.value)
            else r.Ok? && PartsAre(r.value, chains) && Members(children, parts, completion, r.value, chains, reprs)
    ensures backend.db
            == if !installed || children == [] then old(backend.db)
               else Backend.Add(old(backend.db), Backend.Named(completion.uuid), |children|, ttl, get, put).table
  {
    hide Member, Members;
    chains, reprs, get, put := [], [], 0.0, 0.0;
    if !installed {
      return Err(MissingMiddleware), chains, reprs, get, put;
    }
    if children == [] {
      return Err(NoParties), chains, reprs, get, put;
    }
    var created;
    created, get, put := backend.Add(Backend.Named(completion.uuid), |children|, ttl);
    r, chains, reprs := MarkAll(children, parts, completion);
  }

  /** `group.run`.  With completion callbacks there is a barrier with one party
      for each member of the group, and nothing is enqueued before every member
      has been marked. */
  method RunGroup(children: seq<Child>, ghost parts: seq<seq<Letter>>, callbacks: seq<nat>, uuid: string,
                  installed: bool, backend: Stub.StubBackend, ttl: int, delay: Option<nat>, outbox: Outbox)
    returns (error: Option<Error>, ghost run: seq<Child>, ghost chains: seq<seq<Letter>>, ghost sent: seq<Sent>,
             ghost reprs: seq<set<Options>>, ghost get: real, ghost put: real)
    requires PartsAre(children, parts)
    modifies backend`db, backend.clock, outbox
    ensures error == GroupError(parts, callbacks, installed)
    ensures error == Some(MissingMiddleware) <==> callbacks != [] && !installed
    ensures error == Some(NoParties) <==> callbacks != [] && installed && children == []
    ensures error == Some(IndexError) <==>
              (callbacks == [] || installed) && exists i :: 0 <= i < |parts| && parts[i] == []
    ensures outbox.sent == old(outbox.sent) + sent && |run| == |chains|
    ensures callbacks == [] ==> run == children && chains == parts
    ensures callbacks != [] && error.None? ==> Members(children, parts, Completion(uuid, callbacks), run, chains, reprs)
    ensures callbacks == [] || error.None? ==> Sends(run, chains, delay, sent)
    ensures error.None? ==> forall i :: 0 <= i < |sent| ==>
              && i < |chains| && chains[i] != [] && i < |children| && sent[i].message == chains[i][0]
              && sent[i].delay == if children[i].Nested? then Larger(delay, chains[i][0].options.delay) else delay
    ensures if error.None? then |sent| == |parts|
            else if callbacks == [] then |sent| < |parts| && parts[|sent|] == []
            else sent == []
    ensures backend.db
            == if callbacks == [] || !installed || children == [] then old(backend.db)
               else Backend.Add(old(backend.db), Backend.Named(uuid), |children|, ttl, get, put).table
  {
    ErrorMeans(parts, callbacks, installed);
    hide Sends, GroupError, Member;
    if callbacks == [] {
      run, chains, reprs, get, put := children, parts, [], 0.0, 0.0;
      error, sent := RunAll(children, parts, delay, outbox);
      NoneEmpty(children, parts, delay, sent);
      PlainError(parts, installed, if error.None? then |parts| else |sent|);
    } else {
      var marked;
      marked, chains, reprs, get, put :=
        Complete(children, parts, Completion(uuid, callbacks), installed, backend, ttl);
      if marked.Err? {
        return Some(marked.error), [], [], [], [], get, put;
      }
      Flawless(parts, callbacks, installed);
      run := marked.value;
      NoEmptyChains(children, parts, Completion(uuid, callbacks), run, chains, reprs);
      error, sent := RunAll(marked.value, chains, delay, outbox);
    }
  }

  lemma PlainError(parts: seq<seq<Letter>>, installed: bool, n: nat)
    requires n <= |parts| && (n < |parts| ==> parts[n] == []) && forall i :: 0 <= i < n ==> parts[i] != []
    ensures GroupError(parts, [], installed) == if n < |parts| then Some(IndexError) else None
  {
  }

  lemma Flawless(parts: seq<seq<Letter>>, callbacks: seq<nat>, installed: bool)
    requires callbacks != [] && GroupError(parts, callbacks, installed).None?
    ensures installed && parts != []
  {
  }

  lemma NoneEmpty(children: seq<Child>, parts: seq<seq<Letter>>, delay: Option<nat>, sent: seq<Sent>)
    requires |children| == |parts| && Sends(children, parts, delay, sent)
    ensures |sent| <= |parts| && forall i :: 0 <= i < |sent| ==> parts[i] != []
  {
  }
}
