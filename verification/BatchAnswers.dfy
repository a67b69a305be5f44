/** Whose content each answer of a tool batch carries, how the batch ends, and what it records. */
module BatchAnswers {
  import opened Messages
  import opened Subsequences
  import opened Sanitizer
  import opened ToolBatch
  import opened BatchProofs

  datatype Option<T> = None | Some(value: T)

  /** The first tool message of `f` for this call id. */
  function FirstAnswer(f: seq<Message>, id: string): Option<Message> {
    if f == [] then None
    else if IsTool(f[0]) && f[0].toolCallID == id then Some(f[0])
    else FirstAnswer(f[1..], id)
  }

  predicate Distinct(calls: seq<string>) {
    forall i, j | 0 <= i < j < |calls| :: calls[i] != calls[j]
  }

  // ----- What the surroundings of one call mean -----

  /** The turn ends at this call before it is answered. */
  predicate Stops(env: Surroundings) {
    || env.abortRequested
    || env.hook.HookAborts?
    || (env.hook.Proceed? && env.approval.Approved? && env.execution.ExecutionAborts?)
  }

  predicate StopsHard(env: Surroundings) {
    env.abortRequested || if env.hook.HookAborts? then env.hook.hard else env.execution.ExecutionAborts? && env.execution.hard
  }

  /** A hook's answer, or the result of the execution. */
  predicate HasResult(env: Surroundings) {
    !Stops(env) && (env.hook.Respond? || (env.hook.Proceed? && env.approval.Approved?))
  }

  function ResultOf(env: Surroundings): Stage
    requires HasResult(env)
  {
    if env.hook.Respond? then env.hook.stage else env.execution.stage
  }

  /** What a call is answered with when it is its turn. */
  function OwnAnswer(env: Surroundings): string
    requires !Stops(env)
  {
    if HasResult(env) then ResultOf(env).content
    else if env.hook.Deny? then env.hook.denial
    else env.approval.refusal
  }

  /** Something that followed this call's result makes the later calls be skipped. */
  predicate SkipsRest(env: Surroundings, pending: seq<Message>) {
    HasResult(env) && (pending != [] || ResultOf(env).steering != [] || ResultOf(env).interrupt)
  }

  predicate Plain(env: Surroundings, pending: seq<Message>) {
    !Stops(env) && !SkipsRest(env, pending)
  }

  predicate AllPlain(env: seq<Surroundings>, from: nat, i: nat, pending: seq<Message>)
    requires i <= |env|
  {
    forall j | from <= j < i :: Plain(env[j], pending)
  }

  /** The first call from `from` on that is not plain lies before `i` and makes `i` be skipped. */
  predicate IsSkipped(env: seq<Surroundings>, from: nat, i: nat, pending: seq<Message>)
    requires i <= |env|
  {
    exists j | from <= j < i :: SkipsRest(env[j], pending) && AllPlain(env, from, j, pending)
  }

  /** The answer to call `i` that a batch gives first when it goes on at `from`. */
  function Expected(calls: seq<string>, env: seq<Surroundings>, from: nat, i: nat, pending: seq<Message>): Option<Message>
    requires |env| == |calls| && i < |calls|
  {
    if IsSkipped(env, from, i, pending) then Some(ToolMessage(SKIPPED, calls[i]))
    else if AllPlain(env, from, i, pending) && !Stops(env[i]) then Some(ToolMessage(OwnAnswer(env[i]), calls[i]))
    else None
  }

  // ----- The answers -----

  lemma {:induction false} FirstAnswerConcat(f: seq<Message>, g: seq<Message>, id: string)
    ensures FirstAnswer(f + g, id) == if FirstAnswer(f, id).Some? then FirstAnswer(f, id) else FirstAnswer(g, id)
  {
    if f == [] {
      assert f + g == g;
    } else {
      assert (f + g)[1..] == f[1..] + g;
      FirstAnswerConcat(f[1..], g, id);
    }
  }

  lemma OneAnswer(content: string, id: string, id': string)
    ensures FirstAnswer([ToolMessage(content, id)], id') == if id' == id then Some(ToolMessage(content, id)) else None
  {
    assert [ToolMessage(content, id)][1..] == [];
  }

  lemma {:induction false} FirstSkip(calls: seq<string>, from: nat, i: nat)
    requires Distinct(calls) && from <= i < |calls|
    ensures FirstAnswer(Skips(calls, from), calls[i]) == Some(ToolMessage(SKIPPED, calls[i]))
    decreases i - from
  {
    var first, rest := [ToolMessage(SKIPPED, calls[from])], Skips(calls, from + 1);
    FirstAnswerConcat(first, rest, calls[i]);
    OneAnswer(SKIPPED, calls[from], calls[i]);
    if from < i {
      FirstSkip(calls, from + 1, i);
    }
  }

  lemma InjectedAnswersNothing(injected: Injected, id: string)
    ensures FirstAnswer(InjectedMessages(injected), id) == None
  {
  }

  /** What a result appends starts with its own content. */
  lemma ResultStarts(calls: seq<string>, i: nat, stage: Stage, pending: seq<Message>, onSkip: Control, t: nat)
    requires Distinct(calls) && i <= t < |calls|
    ensures FirstAnswer(ResultPhase(calls, i, stage, pending, onSkip).appended, calls[t]) ==
              if t == i then Some(ToolMessage(stage.content, calls[t]))
              else if MustSkip(stage, pending) then Some(ToolMessage(SKIPPED, calls[t]))
              else None
  {
    var own := [ToolMessage(stage.content, calls[i])];
    assert own[1..] == [];
    if MustSkip(stage, pending) {
      FirstAnswerConcat(own, Skips(calls, i + 1), calls[t]);
      if t > i {
        FirstSkip(calls, i + 1, t);
      }
    } else {
      FirstAnswerConcat(own, InjectedMessages(stage.injected), calls[t]);
      InjectedAnswersNothing(stage.injected, calls[t]);
    }
  }

  /** The answers that the phases of one call give first. */
  lemma CallStarts(calls: seq<string>, env: Surroundings, i: nat, pending: seq<Message>, t: nat)
    requires Distinct(calls) && i <= t < |calls|
    ensures FirstAnswer(CallPhase(calls, env, i, pending).appended, calls[t]) ==
              if Stops(env) then None
              else if t == i then Some(ToolMessage(OwnAnswer(env), calls[t]))
              else if SkipsRest(env, pending) then Some(ToolMessage(SKIPPED, calls[t]))
              else None
  {
    if !Stops(env) {
      match env.hook {
        case Respond(stage) => ResponseStarts(calls, env, i, pending, t);
        case Deny(denial) => OneAnswer(denial, calls[i], calls[t]);
        case Proceed => ExecutionStarts(calls, env, i, pending, t);
        case HookAborts(_) =>
      }
    }
  }

  lemma ResponseStarts(calls: seq<string>, env: Surroundings, i: nat, pending: seq<Message>, t: nat)
    requires Distinct(calls) && i <= t < |calls| && !env.abortRequested && env.hook.Respond?
    ensures FirstAnswer(CallPhase(calls, env, i, pending).appended, calls[t]) ==
              if t == i then Some(ToolMessage(env.hook.stage.content, calls[t]))
              else if MustSkip(env.hook.stage, pending) then Some(ToolMessage(SKIPPED, calls[t]))
              else None
  {
    var hook := HookPhase(calls, env, i, pending);
    ResultStarts(calls, i, env.hook.stage, pending, ThisCall, t);
    FirstAnswerConcat(hook.appended, ExecutionPhase(calls, env, i, hook.pending).appended, calls[t]);
  }

  lemma ExecutionStarts(calls: seq<string>, env: Surroundings, i: nat, pending: seq<Message>, t: nat)
    requires Distinct(calls) && i <= t < |calls| && !Stops(env) && env.hook.Proceed?
    ensures FirstAnswer(CallPhase(calls, env, i, pending).appended, calls[t]) ==
              if t == i then Some(ToolMessage(OwnAnswer(env), calls[t]))
              else if SkipsRest(env, pending) then Some(ToolMessage(SKIPPED, calls[t]))
              else None
  {
    var run := ExecutionPhase(calls, env, i, pending);
    assert [] + run.appended == run.appended;
    match env.approval {
      case Refused(refusal) => OneAnswer(refusal, calls[i], calls[t]);
      case Approved => ResultStarts(calls, i, env.execution.stage, pending, Leave(Finished), t);
    }
  }

  /** Where the phases of one call lead. */
  lemma CallLeads(calls: seq<string>, env: Surroundings, i: nat, pending: seq<Message>)
    requires i < |calls|
    ensures var call := CallPhase(calls, env, i, pending);
            && (Stops(env) ==> call.control == Leave(if StopsHard(env) then Aborted else Errored) && call.pending == pending)
            && (Plain(env, pending) ==> call.control == NextCall && call.pending == pending)
            && (SkipsRest(env, pending) ==> pending + ResultOf(env).steering <= call.pending)
            && (SkipsRest(env, pending) && env.hook.Proceed? ==>
                  call.control == Leave(Finished) && call.pending == pending + ResultOf(env).steering)
  {
  }

  lemma FirstCall(calls: seq<string>, env: seq<Surroundings>, from: nat, t: nat, pending: seq<Message>)
    requires |env| == |calls| && from <= t < |calls|
    ensures Expected(calls, env, from, t, pending) ==
              if Stops(env[from]) then None
              else if t == from then Some(ToolMessage(OwnAnswer(env[from]), calls[t]))
              else if SkipsRest(env[from], pending) then Some(ToolMessage(SKIPPED, calls[t]))
              else Expected(calls, env, from + 1, t, pending)
  {
    if from < t {
      if SkipsRest(env[from], pending) {
        assert AllPlain(env, from, from, pending);
      } else if Plain(env[from], pending) {
        SkippedLater(env, from, t, pending);
      }
    }
  }

  lemma SkippedLater(env: seq<Surroundings>, from: nat, i: nat, pending: seq<Message>)
    requires from < i <= |env| && Plain(env[from], pending)
    ensures IsSkipped(env, from, i, pending) <==> IsSkipped(env, from + 1, i, pending)
  {
    if IsSkipped(env, from, i, pending) {
      var j :| from <= j < i && SkipsRest(env[j], pending) && AllPlain(env, from, j, pending);
      assert AllPlain(env, from + 1, j, pending);
    }
    if IsSkipped(env, from + 1, i, pending) {
      var j :| from + 1 <= j < i && SkipsRest(env[j], pending) && AllPlain(env, from + 1, j, pending);
      assert AllPlain(env, from, j, pending);
    }
  }

  lemma {:induction false} AnswersFrom(calls: seq<string>, env: seq<Surroundings>, from: nat, pending: seq<Message>, t: nat)
    requires Distinct(calls) && |env| == |calls| && from <= t < |calls|
    ensures FirstAnswer(RunFrom(calls, env, from, pending).appended, calls[t]) == Expected(calls, env, from, t, pending)
    decreases |calls| - from
  {
    var call := CallPhase(calls, env[from], from, pending);
    FirstCall(calls, env, from, t, pending);
    CallStarts(calls, env[from], from, pending, t);
    CallLeads(calls, env[from], from, pending);
    if !call.control.Leave? {
      FirstAnswerConcat(call.appended, RunFrom(calls, env, from + 1, call.pending).appended, calls[t]);
      if Plain(env[from], pending) && from < t {
        AnswersFrom(calls, env, from + 1, pending, t);
      }
    }
  }

  /**
   However the batch ends and whatever is injected: the first answer to a call is the skip notice if
   an earlier call's result was the first to make the rest be skipped, else its own - the content of
   the responding hook, the denial, the refusal or the executed result - and there is none if and only
   if the turn stopped at that call or before.
   */
  lemma EachCallGetsItsAnswer(calls: seq<string>, env: seq<Surroundings>, pending: seq<Message>, i: nat)
    requires Distinct(calls) && |env| == |calls| && i < |calls|
    ensures FirstAnswer(RunFrom(calls, env, 0, pending).appended, calls[i]) == Expected(calls, env, 0, i, pending)
  {
    AnswersFrom(calls, env, 0, pending, i);
  }

  lemma {:induction false} FirstAnswerIsFirst(f: seq<Message>, m: Message)
    requires AllTools(f) && IsFirstAnswer(f, m)
    ensures FirstAnswer(f, m.toolCallID) == Some(m)
  {
    var k :| 0 <= k < |f| && f[k] == m && forall j | 0 <= j < k :: f[j].toolCallID != m.toolCallID;
    if k > 0 {
      assert f[1..][k - 1] == m;
      assert forall j | 0 <= j < k - 1 :: f[1..][j] == f[j + 1];
      FirstAnswerIsFirst(f[1..], m);
    }
  }

  /** `m` answers call `i`: with the skip notice if it was skipped, else with its own content. */
  predicate HoldsAnswer(m: Message, calls: seq<string>, env: seq<Surroundings>, i: nat, pending: seq<Message>)
    requires |env| == |calls| && i < |calls|
  {
    if IsSkipped(env, 0, i, pending) then m == ToolMessage(SKIPPED, calls[i])
    else !Stops(env[i]) && m == ToolMessage(OwnAnswer(env[i]), calls[i])
  }

  /** What the provider is shown of a finished batch: for each call its own answer or the skip notice. */
  lemma FinishedBatchContents(calls: seq<string>, env: seq<Surroundings>, pending: seq<Message>)
    requires ProperIds(calls) && |env| == |calls|
    requires forall j | 0 <= j < |env| :: NothingInjected(env[j])
    requires RunFrom(calls, env, 0, pending).control == Leave(Finished)
    ensures var p := Prune(RunFrom(calls, env, 0, pending).appended, {});
            |p| == |calls| && forall i | 0 <= i < |calls| :: HoldsAnswer(p[i], calls, env, i, pending)
  {
    var f := RunFrom(calls, env, 0, pending).appended;
    FinishedBatchAnswersEachCall(calls, env, pending);
    forall i | 0 <= i < |calls|
      ensures HoldsAnswer(Prune(f, {})[i], calls, env, i, pending)
    {
      FirstAnswerIsFirst(f, Prune(f, {})[i]);
      EachCallGetsItsAnswer(calls, env, pending, i);
    }
  }

  // ----- How the batch ends -----

  lemma {:induction false} EndsFrom(calls: seq<string>, env: seq<Surroundings>, from: nat, pending: seq<Message>, i: nat)
    requires |env| == |calls| && from <= i <= |calls| && AllPlain(env, from, i, pending)
    ensures RunFrom(calls, env, from, pending).control == RunFrom(calls, env, i, pending).control
    ensures RunFrom(calls, env, from, pending).pending == RunFrom(calls, env, i, pending).pending
    decreases i - from
  {
    if from < i {
      CallLeads(calls, env[from], from, pending);
      EndsFrom(calls, env, from + 1, pending, i);
    }
  }

  /**
   The first call that is not plain decides: the batch ends there, hard or not, or as finished with
   the steering queued; without such a call it finishes and queues nothing. Only a hook's answer that
   makes the rest be skipped lets it go on.
   */
  lemma FirstDisturbanceDecides(calls: seq<string>, env: seq<Surroundings>, pending: seq<Message>, i: nat)
    requires |env| == |calls| && i <= |calls| && AllPlain(env, 0, i, pending)
    ensures var batch := RunFrom(calls, env, 0, pending);
            && (i == |calls| ==> batch.control == Leave(Finished) && batch.pending == pending)
            && (i < |calls| && Stops(env[i]) ==>
                  batch.control == Leave(if StopsHard(env[i]) then Aborted else Errored) && batch.pending == pending)
            && (i < |calls| && SkipsRest(env[i], pending) && env[i].hook.Proceed? ==>
                  batch.control == Leave(Finished) && batch.pending == pending + ResultOf(env[i]).steering)
            && (i < |calls| && SkipsRest(env[i], pending) ==> pending + ResultOf(env[i]).steering <= batch.pending)
  {
    EndsFrom(calls, env, 0, pending, i);
    if i < |calls| {
      var call := CallPhase(calls, env[i], i, pending);
      CallLeads(calls, env[i], i, pending);
      if !call.control.Leave? {
        SteeringStays(calls, env, i + 1, call.pending);
      }
    }
  }

  /** Queued steering is never dropped. */
  lemma {:induction false} SteeringStays(calls: seq<string>, env: seq<Surroundings>, i: nat, pending: seq<Message>)
    requires |env| == |calls| && i <= |calls|
    ensures pending <= RunFrom(calls, env, i, pending).pending
    decreases |calls| - i
  {
    if i < |calls| {
      var call := CallPhase(calls, env[i], i, pending);
      assert pending <= call.pending;
      if !call.control.Leave? {
        SteeringStays(calls, env, i + 1, call.pending);
      }
    }
  }

  lemma {:induction false} DependsOnRest(calls: seq<string>, env: seq<Surroundings>, env': seq<Surroundings>, i: nat,
                                         pending: seq<Message>)
    requires |env| == |calls| == |env'| && i <= |calls| && env[i..] == env'[i..]
    ensures RunFrom(calls, env, i, pending) == RunFrom(calls, env', i, pending)
    decreases |calls| - i
  {
    if i < |calls| {
      var call := CallPhase(calls, env[i], i, pending);
      assert env[i..][0] == env'[i..][0];
      assert env[i..][1..] == env[i + 1..] && env'[i..][1..] == env'[i + 1..];
      if !call.control.Leave? {
        DependsOnRest(calls, env, env', i + 1, call.pending);
      }
    }
  }

  /**
   After a hook's answer that makes the rest be skipped, the batch goes on exactly as if that hook had
   let the call pass: what it then appends are second answers.
   */
  lemma SkippingResponseGoesOn(calls: seq<string>, env: seq<Surroundings>, i: nat, pending: seq<Message>)
    requires |env| == |calls| && i < |calls| && SkipsRest(env[i], pending) && env[i].hook.Respond?
    ensures var stage := env[i].hook.stage;
            var passed := env[i := env[i].(hook := Proceed)];
            var batch, again := RunFrom(calls, env, i, pending), RunFrom(calls, passed, i, pending + stage.steering);
            && batch.appended == [ToolMessage(stage.content, calls[i])] + Skips(calls, i + 1) + again.appended
            && batch.pending == again.pending && batch.control == again.control
  {
    var stage := env[i].hook.stage;
    var passed := env[i := env[i].(hook := Proceed)];
    var hook := HookPhase(calls, env[i], i, pending);
    var run := ExecutionPhase(calls, env[i], i, hook.pending);
    assert HookPhase(calls, passed[i], i, hook.pending) == Phase([], [], hook.pending, ThisCall);
    assert [] + run.appended == run.appended;
    if !run.control.Leave? {
      assert env[i + 1..] == passed[i + 1..];
      DependsOnRest(calls, env, passed, i + 1, run.pending);
      ConcatAssociates(hook.appended, run.appended, RunFrom(calls, env, i + 1, run.pending).appended);
    }
  }

  // ----- What is recorded -----

  function Tools(f: seq<Message>): seq<Message> {
    if f == [] then [] else (if IsTool(f[0]) then [f[0]] else []) + Tools(f[1..])
  }

  lemma {:induction false} ToolsConcat(f: seq<Message>, g: seq<Message>)
    ensures Tools(f + g) == Tools(f) + Tools(g)
  {
    if f == [] {
      assert f + g == g;
    } else {
      assert (f + g)[1..] == f[1..] + g;
      ToolsConcat(f[1..], g);
      ConcatAssociates(if IsTool(f[0]) then [f[0]] else [], Tools(f[1..]), Tools(g));
    }
  }

  lemma {:induction false} ToolsOfTools(f: seq<Message>)
    requires AllTools(f)
    ensures Tools(f) == f
  {
    if f != [] {
      ToolsOfTools(f[1..]);
    }
  }

  /** Exactly the tool messages of a phase are recorded. */
  predicate RecordsTools(phase: Phase) {
    phase.recorded == Tools(phase.appended)
  }

  lemma ResultRecords(calls: seq<string>, i: nat, stage: Stage, pending: seq<Message>, onSkip: Control)
    requires i < |calls|
    ensures RecordsTools(ResultPhase(calls, i, stage, pending, onSkip))
  {
    var t := [ToolMessage(stage.content, calls[i])];
    SkipsAreTools(calls, i + 1);
    ToolsOfTools(t);
    ToolsOfTools(t + Skips(calls, i + 1));
    ToolsConcat(t, InjectedMessages(stage.injected));
    assert Tools(InjectedMessages(stage.injected)) == [];
  }

  lemma ThenRecords(a: Phase, b: Phase)
    requires RecordsTools(a) && RecordsTools(b)
    ensures RecordsTools(Then(a, b))
  {
    ToolsConcat(a.appended, b.appended);
  }

  lemma CallRecords(calls: seq<string>, env: Surroundings, i: nat, pending: seq<Message>)
    requires i < |calls|
    ensures RecordsTools(CallPhase(calls, env, i, pending))
  {
    var hook := HookPhase(calls, env, i, pending);
    var run := ExecutionPhase(calls, env, i, hook.pending);
    if env.hook.Respond? {
      ResultRecords(calls, i, env.hook.stage, pending, ThisCall);
    } else if env.hook.Deny? {
      ToolsOfTools([ToolMessage(env.hook.denial, calls[i])]);
    }
    if env.approval.Refused? {
      ToolsOfTools([ToolMessage(env.approval.refusal, calls[i])]);
    } else if env.execution.Executed? {
      ResultRecords(calls, i, env.execution.stage, hook.pending, Leave(Finished));
    }
    ThenRecords(hook, run);
  }

  /** What the phases of every call have, and what putting phases together keeps, every batch has. */
  lemma {:induction false} BatchHas(P: Phase -> bool, calls: seq<string>, env: seq<Surroundings>, i: nat, pending: seq<Message>)
    requires |env| == |calls| && i <= |calls|
    requires forall end :: P(Phase([], [], end, Leave(Finished)))
    requires forall j: nat, before | j < |calls| :: P(CallPhase(calls, env[j], j, before))
    requires forall a, b | P(a) && P(b) :: P(Then(a, b))
    ensures P(RunFrom(calls, env, i, pending))
    decreases |calls| - i
  {
    if i < |calls| {
      var call := CallPhase(calls, env[i], i, pending);
      if !call.control.Leave? {
        BatchHas(P, calls, env, i + 1, call.pending);
      }
    }
  }

  /**
   However the batch ends, its rollback record is extended by exactly its tool messages, in order; the
   injected SubTurn results are not recorded.
   */
  lemma BatchRecordsItsTools(calls: seq<string>, env: seq<Surroundings>, pending: seq<Message>)
    requires |env| == |calls|
    ensures RecordsTools(RunFrom(calls, env, 0, pending))
  {
    var P := (phase: Phase) => RecordsTools(phase);
    forall j: nat, before | j < |calls|
      ensures P(CallPhase(calls, env[j], j, before))
    {
      CallRecords(calls, env[j], j, before);
    }
    forall a, b | P(a) && P(b)
      ensures P(Then(a, b))
    {
      ThenRecords(a, b);
    }
    BatchHas(P, calls, env, 0, pending);
  }
}
