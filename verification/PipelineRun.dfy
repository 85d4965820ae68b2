/** Running a pipeline: the middleware forwards one message at a time, and the
    calls it makes are those of a fold over the pipeline's stages. */
module PipelineRun {
  import opened Keyspace
  import opened Composition

  datatype Outcome = Returned(value: nat) | Raised | MarkedFailed

  datatype ActorCall = ActorCall(actor: string, args: seq<nat>, kwargs: map<string, nat>)

  /** Whether the actor of that name has `pipe_ignore` set. */
  type Ignoring = string -> bool

  function WithResult(w: Wire, value: nat): Wire {
    w.(stage := w.stage.(args := w.stage.args + [value]))
  }

  /** `Pipelines.after_process_message`: the message to enqueue next, if any,
      and its delay. */
  function Forward(w: Wire, outcome: Outcome, ignoring: Ignoring): Option<(Wire, Option<nat>)> {
    if !outcome.Returned? || w.next.None? then None
    else
      var next := w.next.value;
      var ignore := next.stage.ignore || ignoring(w.stage.actor);
      Some((if ignore then next else WithResult(next, outcome.value), next.stage.delay))
  }

  function CallOf(s: Stage): ActorCall { ActorCall(s.actor, s.args, s.kwargs) }

  /** A message that succeeds hands on the next one, with its own delay and all
      that it had, but for the result behind its arguments.  What is left to be
      done is a shorter chain. */
  lemma ForwardShrinks(w: Wire, outcome: Outcome, ignoring: Ignoring)
    ensures var f := Forward(w, outcome, ignoring);
            && (f.Some? <==> outcome.Returned? && w.next.Some?)
            && (f.Some? ==>
                  var next, sent := w.next.value.stage, f.value.0.stage;
                  && f.value.1 == next.delay && f.value.0.next == w.next.value.next
                  && sent.args == next.args + (if next.ignore || ignoring(w.stage.actor) then [] else [outcome.value])
                  && sent.actor == next.actor && sent.kwargs == next.kwargs && sent.messageId == next.messageId
                  && sent.ignore == next.ignore && sent.delay == next.delay && sent.completion == next.completion
                  && |Stages(f.value.0)| == |Stages(w)| - 1)
  {
    if Forward(w, outcome, ignoring).Some? {
      assert Stages(w) == [w.stage] + Stages(w.next.value);
      assert |Stages(WithResult(w.next.value, 0))| == |Stages(w.next.value)|;
    }
  }

  /** The calls that running the message makes, one delivery after the other;
      call number `k` of the run ends with `outcomes(k)`. */
  function Execution(w: Wire, outcomes: nat -> Outcome, ignoring: Ignoring, k: nat): (calls: seq<ActorCall>)
    ensures calls != []
    decreases |Stages(w)|
  {
    ForwardShrinks(w, outcomes(k), ignoring);
    var f := Forward(w, outcomes(k), ignoring);
    [CallOf(w.stage)] + if f.Some? then Execution(f.value.0, outcomes, ignoring, k + 1) else []
  }

  // ----- the reference: a left fold over the stages

  /** Calls stage after stage, each on its own arguments followed by `carry`,
      the previous result unless it is ignored. */
  function Fold(stages: seq<Stage>, carry: seq<nat>, outcomes: nat -> Outcome, ignoring: Ignoring, k: nat)
    : seq<ActorCall>
  {
    if stages == [] then []
    else
      var s := stages[0];
      [ActorCall(s.actor, s.args + carry, s.kwargs)]
      + if outcomes(k).Returned? && 1 < |stages|
        then
          var carry' := if stages[1].ignore || ignoring(s.actor) then [] else [outcomes(k).value];
          Fold(stages[1..], carry', outcomes, ignoring, k + 1)
        else []
  }

  lemma {:induction false} FoldCarries(s: Stage, rest: seq<Stage>, carry: seq<nat>, outcomes: nat -> Outcome,
                                       ignoring: Ignoring, k: nat)
    ensures Fold([s.(args := s.args + carry)] + rest, [], outcomes, ignoring, k)
            == Fold([s] + rest, carry, outcomes, ignoring, k)
  {
    assert ([s.(args := s.args + carry)] + rest)[1..] == ([s] + rest)[1..];
    assert s.args + carry + [] == s.args + carry;
  }

  /** Message by message, the middleware performs the fold. */
  lemma {:induction false} ExecutionIsFold(w: Wire, outcomes: nat -> Outcome, ignoring: Ignoring, k: nat)
    ensures Execution(w, outcomes, ignoring, k) == Fold(Stages(w), [], outcomes, ignoring, k)
    decreases |Stages(w)|
  {
    assert w.stage.args + [] == w.stage.args;
    var f := Forward(w, outcomes(k), ignoring);
    if f.Some? {
      var next := w.next.value;
      ForwardShrinks(w, outcomes(k), ignoring);
      ExecutionIsFold(f.value.0, outcomes, ignoring, k + 1);
      assert Stages(w)[1..] == Stages(next);
      var rest := if next.next.Some? then Stages(next.next.value) else [];
      assert Stages(next) == [next.stage] + rest;
      if !(next.stage.ignore || ignoring(w.stage.actor)) {
        FoldCarries(next.stage, rest, [outcomes(k).value], outcomes, ignoring, k + 1);
      }
    }
  }

  /** The arguments of call `i`: the stage's own, then the previous result
      unless the stage, or the actor that returned it, has `pipe_ignore` set. */
  function Arguments(stages: seq<Stage>, carry: seq<nat>, outcomes: nat -> Outcome, ignoring: Ignoring,
                     k: nat, i: nat): seq<nat>
    requires i < |stages|
    requires 0 < i ==> outcomes(k + i - 1).Returned?
  {
    stages[i].args
    + if i == 0 then carry
      else if stages[i].ignore || ignoring(stages[i - 1].actor) then []
      else [outcomes(k + i - 1).value]
  }

  /** The calls are those of a prefix of the stages: all of them, or up to the
      first that raises or is marked failed. */
  ghost predicate CallsPrefix(calls: seq<ActorCall>, stages: seq<Stage>, carry: seq<nat>,
                              outcomes: nat -> Outcome, ignoring: Ignoring, k: nat)
  {
    && |calls| <= |stages| && (stages != [] ==> calls != [])
    && (forall j :: k <= j < k + |calls| - 1 ==> outcomes(j).Returned?)
    && (0 < |calls| < |stages| ==> !outcomes(k + |calls| - 1).Returned?)
    && (forall i :: 0 <= i < |calls| ==>
          calls[i] == ActorCall(stages[i].actor, Arguments(stages, carry, outcomes, ignoring, k, i), stages[i].kwargs))
  }

  /** The arguments of a later call, seen from the stage after the first. */
  lemma ArgumentsShift(stages: seq<Stage>, carry: seq<nat>, carry': seq<nat>, outcomes: nat -> Outcome,
                       ignoring: Ignoring, k: nat, i: nat)
    requires 0 < i < |stages| && outcomes(k).Returned?
    requires carry' == if stages[1].ignore || ignoring(stages[0].actor) then [] else [outcomes(k).value]
    requires 1 < i ==> outcomes(k + 1 + (i - 1) - 1).Returned?
    ensures outcomes(k + i - 1).Returned?
    ensures Arguments(stages[1..], carry', outcomes, ignoring, k + 1, i - 1)
            == Arguments(stages, carry, outcomes, ignoring, k, i)
  {
    assert k + 1 + (i - 1) - 1 == k + i - 1;
  }

  /** A call in front of the calls of a prefix of the other stages. */
  lemma PrefixGrows(rest: seq<ActorCall>, stages: seq<Stage>, carry: seq<nat>, carry': seq<nat>,
                    outcomes: nat -> Outcome, ignoring: Ignoring, k: nat)
    requires 1 < |stages| && outcomes(k).Returned?
    requires carry' == if stages[1].ignore || ignoring(stages[0].actor) then [] else [outcomes(k).value]
    requires CallsPrefix(rest, stages[1..], carry', outcomes, ignoring, k + 1)
    ensures CallsPrefix([ActorCall(stages[0].actor, stages[0].args + carry, stages[0].kwargs)] + rest,
                        stages, carry, outcomes, ignoring, k)
  {
    var calls := [ActorCall(stages[0].actor, stages[0].args + carry, stages[0].kwargs)] + rest;
    forall j | k <= j < k + |calls| - 1 ensures outcomes(j).Returned? {
      assert j == k || k + 1 <= j < k + 1 + |rest| - 1;
    }
    hide Arguments;
    forall i | 0 <= i < |calls|
      ensures 0 < i ==> outcomes(k + i - 1).Returned?
      ensures calls[i]
              == ActorCall(stages[i].actor, Arguments(stages, carry, outcomes, ignoring, k, i), stages[i].kwargs)
    {
      if i == 0 {
        FirstArguments(stages, carry, outcomes, ignoring, k);
      } else {
        ArgumentsShift(stages, carry, carry', outcomes, ignoring, k, i);
        assert calls[i] == rest[i - 1] && stages[1..][i - 1] == stages[i];
      }
    }
  }

  lemma FirstArguments(stages: seq<Stage>, carry: seq<nat>, outcomes: nat -> Outcome, ignoring: Ignoring, k: nat)
    requires stages != []
    ensures Arguments(stages, carry, outcomes, ignoring, k, 0) == stages[0].args + carry
  {
  }

  lemma {:induction false} FoldIsPrefix(stages: seq<Stage>, carry: seq<nat>, outcomes: nat -> Outcome,
                                        ignoring: Ignoring, k: nat)
    ensures CallsPrefix(Fold(stages, carry, outcomes, ignoring, k), stages, carry, outcomes, ignoring, k)
  {
    if stages != [] && outcomes(k).Returned? && 1 < |stages| {
      var carry' := if stages[1].ignore || ignoring(stages[0].actor) then [] else [outcomes(k).value];
      var rest := Fold(stages[1..], carry', outcomes, ignoring, k + 1);
      FoldIsPrefix(stages[1..], carry', outcomes, ignoring, k + 1);
      hide CallsPrefix;
      PrefixGrows(rest, stages, carry, carry', outcomes, ignoring, k);
    }
  }

  /** The whole story: build a pipeline from any children and run it.  The
      calls are a prefix of the children's messages, nesting flattened, each
      with its own arguments and the previous result; a target that the last
      message already had follows, and only then is there anything more. */
  lemma PipelineRuns(ms: seq<Letter>, stages: seq<Stage>, w: Wire, outcomes: nat -> Outcome, ignoring: Ignoring)
    requires ms != [] && Linked(ms)
    requires |stages| == |ms| && forall i :: 0 <= i < |ms| ==> StageOf(ms[i]) == stages[i]
    requires Encodes(ms[0], w)
    ensures stages <= Stages(w)
    ensures Stages(w) == stages <==> ms[|ms| - 1].options.target.None?
    ensures CallsPrefix(Execution(w, outcomes, ignoring, 0), Stages(w), [], outcomes, ignoring, 0)
  {
    Unfolds(ms, 0, w);
    assert Stages(w)[..|ms|] == stages;
    ExecutionIsFold(w, outcomes, ignoring, 0);
    FoldIsPrefix(Stages(w), [], outcomes, ignoring, 0);
  }
}
