/** Every call of a finished batch is answered, and what the provider sees of the batch. */
module BatchProofs {
  import opened Messages
  import opened Subsequences
  import opened Sanitizer
  import opened SanitizeProofs
  import opened WellFormedness
  import opened ToolBatch

  predicate AllTools(f: seq<Message>) {
    forall k | 0 <= k < |f| :: IsTool(f[k])
  }

  /** Distinct, non-empty call ids. */
  predicate ProperIds(calls: seq<string>) {
    "" !in calls && forall i, j | 0 <= i < j < |calls| :: calls[i] != calls[j]
  }

  predicate NothingInjected(env: Surroundings) {
    (env.hook.Respond? ==> env.hook.stage.injected.Nothing?) &&
    (env.execution.Executed? ==> env.execution.stage.injected.Nothing?)
  }

  // ----- Every call is answered, in call order -----

  lemma {:induction false} PruneTools(x: seq<Message>, y: seq<Message>, seen: set<string>)
    requires AllTools(x)
    ensures Prune(x + y, seen) == Prune(x, seen) + Prune(y, seen + ResultIds(Prune(x, seen)))
    decreases |x|
  {
    if x == [] {
      assert x + y == y && seen + ResultIds([]) == seen;
    } else {
      var m, rest := x[0], x[1..];
      assert (x + y)[0] == m && (x + y)[1..] == rest + y;
      if m.toolCallID !in seen {
        PruneTools(rest, y, Mark(seen, m));
        SeenAfter(seen, m, Prune(rest, Mark(seen, m)));
        ConcatAssociates([m], Prune(rest, Mark(seen, m)),
                         Prune(y, Mark(seen, m) + ResultIds(Prune(rest, Mark(seen, m)))));
      } else {
        PruneTools(rest, y, seen);
      }
    }
  }

  function Answers(calls: seq<string>, k: nat): set<string>
    requires k <= |calls|
  {
    set i | 0 <= i < k :: calls[i]
  }

  /** `f` answers, for those who know the first `k` answers, exactly the calls from `k` to `k'`. */
  predicate Delivers(f: seq<Message>, calls: seq<string>, k: nat, k': nat) {
    && k <= k' <= |calls| && AllTools(f)
    && var p := Prune(f, Answers(calls, k));
       |p| == k' - k && forall m | 0 <= m < |p| :: IsTool(p[m]) && p[m].toolCallID == calls[k + m]
  }

  lemma DeliveredIds(p: seq<Message>, calls: seq<string>, k: nat, k': nat)
    requires ProperIds(calls) && k <= k' <= |calls| && |p| == k' - k
    requires forall m | 0 <= m < |p| :: IsTool(p[m]) && p[m].toolCallID == calls[k + m]
    ensures Answers(calls, k) + ResultIds(p) == Answers(calls, k')
  {
    forall id | id in Answers(calls, k')
      ensures id in Answers(calls, k) + ResultIds(p)
    {
      var i :| 0 <= i < k' && calls[i] == id;
      if i >= k {
        assert p[i - k].toolCallID == id;
      }
    }
    forall id | id in ResultIds(p)
      ensures id in Answers(calls, k')
    {
      var m :| 0 <= m < |p| && p[m].toolCallID == id;
      assert calls[k + m] == id;
    }
  }

  lemma DeliversThen(f: seq<Message>, g: seq<Message>, calls: seq<string>, k: nat, k': nat, k'': nat)
    requires ProperIds(calls) && Delivers(f, calls, k, k') && Delivers(g, calls, k', k'')
    ensures Delivers(f + g, calls, k, k'')
  {
    PruneTools(f, g, Answers(calls, k));
    DeliveredIds(Prune(f, Answers(calls, k)), calls, k, k');
  }

  lemma DeliversNothing(calls: seq<string>, k: nat)
    requires k <= |calls|
    ensures Delivers([], calls, k, k)
  {
  }

  lemma DeliversOne(content: string, calls: seq<string>, i: nat, k: nat)
    requires ProperIds(calls) && i < |calls| && i <= k <= |calls|
    ensures Delivers([ToolMessage(content, calls[i])], calls, k, if i == k then k + 1 else k)
  {
    var t := ToolMessage(content, calls[i]);
    assert [t][1..] == [];
    if i == k {
      assert calls[i] !in Answers(calls, k);
    } else {
      assert calls[i] in Answers(calls, k);
    }
  }

  lemma {:induction false} DeliversSkips(calls: seq<string>, i: nat, k: nat)
    requires ProperIds(calls) && i <= k <= |calls|
    ensures Delivers(Skips(calls, i), calls, k, |calls|)
    decreases |calls| - i
  {
    if i < |calls| {
      DeliversOne(SKIPPED, calls, i, k);
      var k' := if i == k then k + 1 else k;
      DeliversSkips(calls, i + 1, k');
      DeliversThen([ToolMessage(SKIPPED, calls[i])], Skips(calls, i + 1), calls, k, k', |calls|);
    } else {
      DeliversNothing(calls, k);
    }
  }

  /** A result answers its call, and on a skip all the later ones. */
  lemma DeliversResult(calls: seq<string>, i: nat, stage: Stage, pending: seq<Message>, onSkip: Control, k: nat)
    returns (k': nat)
    requires ProperIds(calls) && i < |calls| && i <= k <= |calls| && stage.injected.Nothing?
    ensures i < k' && Delivers(ResultPhase(calls, i, stage, pending, onSkip).appended, calls, k, k')
    ensures MustSkip(stage, pending) ==> k' == |calls|
  {
    DeliversOne(stage.content, calls, i, k);
    k' := if i == k then k + 1 else k;
    var t := [ToolMessage(stage.content, calls[i])];
    if MustSkip(stage, pending) {
      DeliversSkips(calls, i + 1, k');
      DeliversThen(t, Skips(calls, i + 1), calls, k, k', |calls|);
      k' := |calls|;
    } else {
      assert t + [] == t;
    }
  }

  lemma DeliversHook(calls: seq<string>, env: Surroundings, i: nat, pending: seq<Message>, k: nat) returns (k': nat)
    requires ProperIds(calls) && i < |calls| && i <= k <= |calls| && NothingInjected(env)
    ensures Delivers(HookPhase(calls, env, i, pending).appended, calls, k, k')
    ensures HookPhase(calls, env, i, pending).control == NextCall ==> i < k'
  {
    k' := k;
    DeliversNothing(calls, k);
    if !env.abortRequested {
      match env.hook {
        case Deny(denial) =>
          DeliversOne(denial, calls, i, k);
          k' := if i == k then k + 1 else k;
        case Respond(stage) =>
          k' := DeliversResult(calls, i, stage, pending, ThisCall, k);
        case _ =>
      }
    }
  }

  lemma DeliversExecution(calls: seq<string>, env: Surroundings, i: nat, pending: seq<Message>, k: nat) returns (k': nat)
    requires ProperIds(calls) && i < |calls| && i <= k <= |calls| && NothingInjected(env)
    ensures Delivers(ExecutionPhase(calls, env, i, pending).appended, calls, k, k')
    ensures ExecutionPhase(calls, env, i, pending).control == NextCall ==> i < k'
    ensures ExecutionPhase(calls, env, i, pending).control == Leave(Finished) ==> k' == |calls|
  {
    k' := k;
    DeliversNothing(calls, k);
    match env.approval {
      case Refused(refusal) =>
        DeliversOne(refusal, calls, i, k);
        k' := if i == k then k + 1 else k;
      case Approved =>
        if env.execution.Executed? {
          k' := DeliversResult(calls, i, env.execution.stage, pending, Leave(Finished), k);
        }
    }
  }

  lemma HookNeverFinishes(calls: seq<string>, env: Surroundings, i: nat, pending: seq<Message>)
    requires i < |calls|
    ensures HookPhase(calls, env, i, pending).control != Leave(Finished)
  {
  }

  lemma DeliversCall(calls: seq<string>, env: Surroundings, i: nat, pending: seq<Message>, k: nat) returns (k': nat)
    requires ProperIds(calls) && i < |calls| && i <= k <= |calls| && NothingInjected(env)
    ensures Delivers(CallPhase(calls, env, i, pending).appended, calls, k, k')
    ensures !CallPhase(calls, env, i, pending).control.Leave? ==> i < k'
    ensures CallPhase(calls, env, i, pending).control == Leave(Finished) ==> k' == |calls|
  {
    var hook := HookPhase(calls, env, i, pending);
    HookNeverFinishes(calls, env, i, pending);
    k' := DeliversHook(calls, env, i, pending, k);
    if hook.control == ThisCall {
      var run := ExecutionPhase(calls, env, i, hook.pending);
      var k1 := k';
      ExecutionNeverStays(calls, env, i, hook.pending);
      k' := DeliversExecution(calls, env, i, hook.pending, k1);
      DeliversThen(hook.appended, run.appended, calls, k, k1, k');
    }
  }

  lemma ExecutionNeverStays(calls: seq<string>, env: Surroundings, i: nat, pending: seq<Message>)
    requires i < |calls|
    ensures ExecutionPhase(calls, env, i, pending).control != ThisCall
  {
  }

  lemma {:induction false} DeliversBatch(calls: seq<string>, env: seq<Surroundings>, i: nat, pending: seq<Message>, k: nat)
    requires ProperIds(calls) && |env| == |calls| && i <= k <= |calls|
    requires forall j | 0 <= j < |env| :: NothingInjected(env[j])
    requires RunFrom(calls, env, i, pending).control == Leave(Finished)
    ensures Delivers(RunFrom(calls, env, i, pending).appended, calls, k, |calls|)
    decreases |calls| - i
  {
    if i == |calls| {
      DeliversNothing(calls, k);
    } else {
      var call := CallPhase(calls, env[i], i, pending);
      var k' := DeliversCall(calls, env[i], i, pending, k);
      if !call.control.Leave? {
        DeliversBatch(calls, env, i + 1, call.pending, k');
        DeliversThen(call.appended, RunFrom(calls, env, i + 1, call.pending).appended, calls, k, k', |calls|);
      }
    }
  }

  /** `m` is the first message of `f` that answers its id. */
  ghost predicate IsFirstAnswer(f: seq<Message>, m: Message) {
    exists k | 0 <= k < |f| :: f[k] == m && forall j | 0 <= j < k :: f[j].toolCallID != m.toolCallID
  }

  lemma {:induction false} PruneKeepsFirst(f: seq<Message>, seen: set<string>, i: nat)
    requires AllTools(f) && "" !in seen && i < |Prune(f, seen)| && Prune(f, seen)[i].toolCallID != ""
    ensures IsFirstAnswer(f, Prune(f, seen)[i])
    ensures Prune(f, seen)[i].toolCallID !in seen
    decreases |f|
  {
    var m, rest := f[0], f[1..];
    if m.toolCallID !in seen && i == 0 {
      assert f[0] == Prune(f, seen)[i];
    } else {
      var seen' := Mark(seen, m);
      if m.toolCallID !in seen {
        PruneKeepsFirst(rest, seen', i - 1);
        FirstAnswerLater(m, rest, Prune(rest, seen')[i - 1]);
      } else {
        PruneKeepsFirst(rest, seen, i);
        FirstAnswerLater(m, rest, Prune(rest, seen)[i]);
      }
      assert [m] + rest == f;
    }
  }

  lemma FirstAnswerLater(m: Message, rest: seq<Message>, a: Message)
    requires IsFirstAnswer(rest, a) && a.toolCallID != m.toolCallID
    ensures IsFirstAnswer([m] + rest, a)
  {
    var k :| 0 <= k < |rest| && rest[k] == a && forall j | 0 <= j < k :: rest[j].toolCallID != a.toolCallID;
    var f := [m] + rest;
    assert f[k + 1] == a;
    assert forall j | 0 <= j < k + 1 :: f[j].toolCallID != a.toolCallID;
  }

  /**
   Whatever mix of responses, denials, refusals, executions and skips: a finished batch without
   injected messages contains only tool messages, and dropping repetitions leaves exactly one
   answer for each call, the first one given, in call order.
   */
  lemma FinishedBatchAnswersEachCall(calls: seq<string>, env: seq<Surroundings>, pending: seq<Message>)
    requires ProperIds(calls) && |env| == |calls|
    requires forall j | 0 <= j < |env| :: NothingInjected(env[j])
    requires RunFrom(calls, env, 0, pending).control == Leave(Finished)
    ensures var f := RunFrom(calls, env, 0, pending).appended;
            AllTools(f) && |Prune(f, {})| == |calls| &&
            forall i | 0 <= i < |calls| :: Prune(f, {})[i].toolCallID == calls[i] && IsFirstAnswer(f, Prune(f, {})[i])
  {
    DeliversBatch(calls, env, 0, pending, 0);
    var f := RunFrom(calls, env, 0, pending).appended;
    assert Answers(calls, 0) == {};
    forall i | 0 <= i < |calls|
      ensures Prune(f, {})[i].toolCallID == calls[i] && IsFirstAnswer(f, Prune(f, {})[i])
    {
      assert Prune(f, {})[i].toolCallID == calls[i];
      assert calls[i] in calls;
      PruneKeepsFirst(f, {}, i);
    }
  }

  // ----- What sanitizing makes of a batch -----

  predicate ToolsAndUsers(f: seq<Message>) {
    forall k | 0 <= k < |f| :: IsTool(f[k]) || IsUser(f[k])
  }

  function Users(f: seq<Message>): (users: seq<Message>)
    ensures forall k | 0 <= k < |users| :: IsUser(users[k])
  {
    if f == [] then [] else (if IsUser(f[0]) then [f[0]] else []) + Users(f[1..])
  }

  lemma {:induction false} RepairRun(s: seq<Message>, run: seq<Message>)
    requires OwnedByCaller(s) && AllTools(run)
    ensures Repair(s, run) == s + run && OwnedByCaller(s + run)
    decreases |run|
  {
    if run == [] {
      assert s + run == s;
    } else {
      assert (s + [run[0]])[..|s|] == s;
      RepairRun(s + [run[0]], run[1..]);
      assert s + [run[0]] + run[1..] == s + run;
    }
  }

  /** Once a user message came between, tool messages are orphans. */
  lemma {:induction false} RepairOrphans(s: seq<Message>, g: seq<Message>)
    requires !OwnedByCaller(s) && ToolsAndUsers(g)
    ensures Repair(s, g) == s + Users(g)
    decreases |g|
  {
    if g == [] {
      assert s + [] == s;
    } else if IsUser(g[0]) {
      RepairOrphans(s + [g[0]], g[1..]);
      ConcatAssociates(s, [g[0]], Users(g[1..]));
    } else {
      RepairOrphans(s, g[1..]);
    }
  }

  lemma {:induction false} UsersAfterRun(f: seq<Message>)
    ensures Users(f[RunLength(f)..]) == Users(f)
  {
    if f != [] && IsTool(f[0]) {
      UsersAfterRun(f[1..]);
      assert f[RunLength(f)..] == f[1..][RunLength(f[1..])..];
    } else {
      assert f[0..] == f;
    }
  }

  /** After a complete run, only injected users are admitted. */
  lemma RepairAfterRun(s: seq<Message>, rest: seq<Message>)
    requires ToolsAndUsers(rest) && (rest != [] ==> IsUser(rest[0]))
    ensures Repair(s, rest) == s + Users(rest)
  {
    if rest != [] {
      assert !OwnedByCaller(s + [rest[0]]);
      RepairOrphans(s + [rest[0]], rest[1..]);
      ConcatAssociates(s, [rest[0]], Users(rest[1..]));
    } else {
      assert s + [] == s;
    }
  }

  lemma RepairBatch(s: seq<Message>, m: Message, f: seq<Message>)
    requires EndsInUserOrTool(s) && IsCaller(m) && ToolsAndUsers(f)
    ensures Repair(s, [m] + f) == s + (([m] + f[..RunLength(f)]) + Users(f))
  {
    var run := f[..RunLength(f)];
    assert ([m] + f)[1..] == f;
    assert (s + [m])[..|s|] == s;
    RepairBehindCaller(s + [m], f);
    ConcatAssociates(s, [m], run);
    ConcatAssociates(s, [m] + run, Users(f));
  }

  lemma RepairBehindCaller(s: seq<Message>, f: seq<Message>)
    requires OwnedByCaller(s) && ToolsAndUsers(f)
    ensures Repair(s, f) == s + f[..RunLength(f)] + Users(f)
  {
    var n := RunLength(f);
    var run, rest := f[..n], f[n..];
    RunIsMaximal(f);
    UsersAfterRun(f);
    assert f == run + rest;
    RepairSplit(s, run, rest);
    RepairRun(s, run);
    RepairAfterRun(s + run, rest);
  }

  lemma {:induction false} PruneUsers(users: seq<Message>, seen: set<string>)
    requires forall k | 0 <= k < |users| :: IsUser(users[k])
    ensures Prune(users, seen) == users
    decreases |users|
  {
    if users != [] {
      PruneUsers(users[1..], seen);
    }
  }

  lemma PruneBatch(m: Message, run: seq<Message>, users: seq<Message>, seen: set<string>)
    requires IsCaller(m) && AllTools(run) && (forall k | 0 <= k < |users| :: IsUser(users[k]))
    ensures Prune(([m] + run) + users, seen) == (if Answered(m, run) then [m] + Prune(run, seen) else []) + users
  {
    PruneSplit([m] + run, users, seen);
    PruneUsers(users, seen + ResultIds(Prune([m] + run, seen)));
    RunOfTools(run);
    assert run[..|run|] == run && run[|run|..] == [];
    PruneOneBlock(m, run, seen);
    assert [m] + Prune(run, seen) + [] == [m] + Prune(run, seen);
  }

  /**
   Any batch, even one that was left early or interrupted by injected SubTurn results: the
   calling assistant survives sanitizing exactly when every call was answered before the first
   injected message; results after that message are orphans either way.
   */
  lemma SanitizedBatch(h: seq<Message>, m: Message, f: seq<Message>)
    requires EndsInUserOrTool(Repair([], h)) && IsCaller(m) && ToolsAndUsers(f)
    ensures var run := f[..RunLength(f)];
            Sanitize(h + ([m] + f)) ==
              Sanitize(h) + ((if Answered(m, run) then [m] + Prune(run, ResultIds(Sanitize(h))) else []) + Users(f))
    ensures Answered(m, f[..RunLength(f)]) <==> Answered(m, f)
  {
    var s, run := Repair([], h), f[..RunLength(f)];
    AnsweredInRun(m, f);
    RepairSplit([], h, [m] + f);
    RepairBatch(s, m, f);
    PruneAfterHistory(s, m, run, Users(f));
  }

  lemma AnsweredInRun(m: Message, f: seq<Message>)
    ensures AllTools(f[..RunLength(f)])
    ensures Answered(m, f[..RunLength(f)]) <==> Answered(m, f)
  {
    var run := f[..RunLength(f)];
    RunIsMaximal(f);
    assert f == run + f[RunLength(f)..];
    RunIsLocal(run, f[RunLength(f)..]);
  }

  lemma PruneAfterHistory(s: seq<Message>, m: Message, run: seq<Message>, users: seq<Message>)
    requires IsCaller(m) && AllTools(run) && forall k | 0 <= k < |users| :: IsUser(users[k])
    ensures var before := Prune(s, {});
            Prune(s + (([m] + run) + users), {}) ==
              before + ((if Answered(m, run) then [m] + Prune(run, ResultIds(before)) else []) + users)
  {
    var ids := ResultIds(Prune(s, {}));
    PruneSplit(s, ([m] + run) + users, {});
    assert {} + ids == ids;
    PruneBatch(m, run, users, ids);
  }

  /** For fresh call ids the provider sees the assistant message and one answer per call. */
  lemma SanitizedFinishedBatch(h: seq<Message>, content: string, calls: seq<string>, env: seq<Surroundings>, pending: seq<Message>)
    requires EndsInUserOrTool(Repair([], h))
    requires ProperIds(calls) && calls != [] && |env| == |calls|
    requires forall id | id in calls :: id !in ResultIds(Sanitize(h))
    requires forall j | 0 <= j < |env| :: NothingInjected(env[j])
    requires RunFrom(calls, env, 0, pending).control == Leave(Finished)
    ensures var m, f := AssistantMessage(content, calls), RunFrom(calls, env, 0, pending).appended;
            Sanitize(h + ([m] + f)) == Sanitize(h) + ([m] + Prune(f, {}))
  {
    var m, f := AssistantMessage(content, calls), RunFrom(calls, env, 0, pending).appended;
    var ids := ResultIds(Sanitize(h));
    FinishedBatchAnswersEachCall(calls, env, pending);
    SanitizedBatch(h, m, f);
    RunOfTools(f);
    assert f[..|f|] == f;
    NoUsersInRun(f);
    var p := Prune(f, {});
    PrunedAnswers(m, calls, f);
    assert forall i | 0 <= i < |p| :: p[i].toolCallID in calls;
    PruneFresh(f, ids);
    assert [m] + p + [] == [m] + p;
  }

  lemma PrunedAnswers(m: Message, calls: seq<string>, f: seq<Message>)
    requires m.toolCalls == calls && "" !in calls && AllTools(f) && |Prune(f, {})| == |calls|
    requires forall i | 0 <= i < |calls| :: Prune(f, {})[i].toolCallID == calls[i]
    ensures Answered(m, f)
  {
    forall id | id in calls
      ensures id in RunIds(f)
    {
      var i :| 0 <= i < |calls| && calls[i] == id;
      PruneIsSub(f, i);
    }
  }

  /** Ids that do not occur in what is left make no difference. */
  lemma PruneFresh(f: seq<Message>, ids: set<string>)
    requires "" !in ids && forall i | 0 <= i < |Prune(f, {})| :: Prune(f, {})[i].toolCallID !in ids
    ensures Prune(f, ids) == Prune(f, {})
  {
    PruneSeen(f, {}, ids);
    assert {} + ids == ids;
    WithoutIsShorter(Prune(f, {}), ids);
  }

  lemma {:induction false} NoUsersInRun(f: seq<Message>)
    requires AllTools(f)
    ensures Users(f) == []
  {
    if f != [] {
      NoUsersInRun(f[1..]);
    }
  }

  /** An answer that is left after pruning was in the run. */
  lemma PruneIsSub(f: seq<Message>, i: nat)
    requires AllTools(f) && i < |Prune(f, {})| && Prune(f, {})[i].toolCallID != ""
    ensures Prune(f, {})[i].toolCallID in RunIds(f)
  {
    PruneKeepsFirst(f, {}, i);
    var a := Prune(f, {})[i];
    var k :| 0 <= k < |f| && f[k] == a && forall j | 0 <= j < k :: f[j].toolCallID != a.toolCallID;
    RunOfTools(f);
    RunIdAt(f, k);
  }

  lemma ToolsAndUsersConcat(f: seq<Message>, g: seq<Message>)
    requires ToolsAndUsers(f) && ToolsAndUsers(g)
    ensures ToolsAndUsers(f + g)
  {
  }

  lemma ResultsAreToolsAndUsers(calls: seq<string>, i: nat, stage: Stage, pending: seq<Message>, onSkip: Control)
    requires i < |calls|
    ensures ToolsAndUsers(ResultPhase(calls, i, stage, pending, onSkip).appended)
  {
    var t := [ToolMessage(stage.content, calls[i])];
    SkipsAreTools(calls, i + 1);
    ToolsAndUsersConcat(t, Skips(calls, i + 1));
    ToolsAndUsersConcat(t, InjectedMessages(stage.injected));
  }

  lemma CallAppendsToolsAndUsers(calls: seq<string>, env: Surroundings, i: nat, pending: seq<Message>)
    requires i < |calls|
    ensures ToolsAndUsers(CallPhase(calls, env, i, pending).appended)
  {
    var hook := HookPhase(calls, env, i, pending);
    if env.hook.Respond? {
      ResultsAreToolsAndUsers(calls, i, env.hook.stage, pending, ThisCall);
    }
    if env.execution.Executed? {
      ResultsAreToolsAndUsers(calls, i, env.execution.stage, hook.pending, Leave(Finished));
    }
    ToolsAndUsersConcat(hook.appended, ExecutionPhase(calls, env, i, hook.pending).appended);
  }

  lemma {:induction false} BatchAppendsToolsAndUsers(calls: seq<string>, env: seq<Surroundings>, i: nat, pending: seq<Message>)
    requires |env| == |calls| && i <= |calls|
    ensures ToolsAndUsers(RunFrom(calls, env, i, pending).appended)
    decreases |calls| - i
  {
    if i < |calls| {
      var call := CallPhase(calls, env[i], i, pending);
      CallAppendsToolsAndUsers(calls, env[i], i, pending);
      if !call.control.Leave? {
        BatchAppendsToolsAndUsers(calls, env, i + 1, call.pending);
        ToolsAndUsersConcat(call.appended, RunFrom(calls, env, i + 1, call.pending).appended);
      }
    }
  }

  /**
   Whatever the batch did - finished, failed, aborted, or was interrupted by SubTurn results: of
   the calling assistant and its answers the provider sees either the whole block, when every call
   was answered before the first injected message, or nothing; injected messages always stay.
   */
  lemma SanitizedAnyBatch(h: seq<Message>, content: string, calls: seq<string>, env: seq<Surroundings>, pending: seq<Message>)
    requires EndsInUserOrTool(Repair([], h)) && calls != [] && |env| == |calls|
    ensures var m, f := AssistantMessage(content, calls), RunFrom(calls, env, 0, pending).appended;
            Sanitize(h + ([m] + f)) ==
              Sanitize(h) +
              ((if forall id | id in calls :: id in RunIds(f)
                then [m] + Prune(f[..RunLength(f)], ResultIds(Sanitize(h))) else []) + Users(f))
  {
    BatchAppendsToolsAndUsers(calls, env, 0, pending);
    SanitizedBatch(h, AssistantMessage(content, calls), RunFrom(calls, env, 0, pending).appended);
  }

  // ----- A response with pending steering repeats results -----

  lemma {:induction false} SkipsAreTools(calls: seq<string>, i: nat)
    requires i <= |calls|
    ensures AllTools(Skips(calls, i))
    decreases |calls| - i
  {
    if i < |calls| {
      SkipsAreTools(calls, i + 1);
    }
  }

  /**
   A hook that responds while steering is pending does not end the batch: the call is executed
   all the same, and every call of the batch is answered twice.
   */
  lemma RespondWithSteeringRepeats(calls: seq<string>, env: seq<Surroundings>, stage: Stage, run: Stage, pending: seq<Message>)
    requires calls != [] && |env| == |calls|
    requires env[0] == Surroundings(false, Respond(stage), Approved, Executed(run))
    requires stage.steering != []
    ensures var first, second := ToolMessage(stage.content, calls[0]), ToolMessage(run.content, calls[0]);
            RunFrom(calls, env, 0, pending).appended == [first] + Skips(calls, 1) + ([second] + Skips(calls, 1))
    ensures RunFrom(calls, env, 0, pending).control == Leave(Finished)
  {
    assert pending + stage.steering != [];
    assert pending + stage.steering + run.steering != [];
  }

  /** Call `i` is answered by its hook, and what follows the answer makes the rest be skipped. */
  predicate RespondsAndSkips(env: Surroundings, pending: seq<Message>) {
    !env.abortRequested && env.hook.Respond? && MustSkip(env.hook.stage, pending)
  }

  /** Some call that the batch reaches from `i` on does so. */
  predicate Repeats(calls: seq<string>, env: seq<Surroundings>, i: nat, pending: seq<Message>)
    requires |env| == |calls| && i <= |calls|
    decreases |calls| - i
  {
    i < |calls| &&
    (RespondsAndSkips(env[i], pending) ||
     var call := CallPhase(calls, env[i], i, pending);
     !call.control.Leave? && Repeats(calls, env, i + 1, call.pending))
  }

  lemma {:induction false} SkipsCount(calls: seq<string>, i: nat)
    requires i <= |calls|
    ensures |Skips(calls, i)| == |calls| - i
    decreases |calls| - i
  {
    if i < |calls| {
      SkipsCount(calls, i + 1);
    }
  }

  lemma ResultCount(calls: seq<string>, i: nat, stage: Stage, pending: seq<Message>, onSkip: Control)
    requires i < |calls| && stage.injected.Nothing?
    ensures |ResultPhase(calls, i, stage, pending, onSkip).appended| == if MustSkip(stage, pending) then |calls| - i else 1
  {
    SkipsCount(calls, i + 1);
  }

  lemma ExecutionCount(calls: seq<string>, env: Surroundings, i: nat, pending: seq<Message>)
    requires i < |calls| && NothingInjected(env)
    ensures var run := ExecutionPhase(calls, env, i, pending);
            && (run.control == NextCall ==> |run.appended| == 1)
            && (run.control == Leave(Finished) ==> |run.appended| == |calls| - i)
  {
    if env.approval.Approved? && env.execution.Executed? {
      ResultCount(calls, i, env.execution.stage, pending, Leave(Finished));
    }
  }

  lemma HookCount(calls: seq<string>, env: Surroundings, i: nat, pending: seq<Message>)
    requires i < |calls| && NothingInjected(env)
    ensures var hook := HookPhase(calls, env, i, pending);
            && (hook.control == NextCall ==> |hook.appended| == 1 && !RespondsAndSkips(env, pending))
            && (hook.control == ThisCall ==> |hook.appended| == if RespondsAndSkips(env, pending) then |calls| - i else 0)
  {
    if env.hook.Respond? {
      ResultCount(calls, i, env.hook.stage, pending, ThisCall);
    }
  }

  /** How many messages one call appends: its share, and all the later ones again when it repeats. */
  lemma CallCount(calls: seq<string>, env: Surroundings, i: nat, pending: seq<Message>)
    requires i < |calls| && NothingInjected(env)
    ensures var call := CallPhase(calls, env, i, pending);
            var extra := if RespondsAndSkips(env, pending) then |calls| - i else 0;
            && (call.control == NextCall ==> |call.appended| == 1 + extra)
            && (call.control == Leave(Finished) ==> |call.appended| == |calls| - i + extra)
            && call.control != ThisCall
  {
    var hook := HookPhase(calls, env, i, pending);
    HookCount(calls, env, i, pending);
    HookNeverFinishes(calls, env, i, pending);
    if hook.control == ThisCall {
      ExecutionCount(calls, env, i, hook.pending);
      ExecutionNeverStays(calls, env, i, hook.pending);
    }
  }

  /** A finished batch appends one message for each call, and more exactly when it repeats. */
  lemma {:induction false} BatchCount(calls: seq<string>, env: seq<Surroundings>, i: nat, pending: seq<Message>)
    requires |env| == |calls| && i <= |calls|
    requires forall j | 0 <= j < |env| :: NothingInjected(env[j])
    requires RunFrom(calls, env, i, pending).control == Leave(Finished)
    ensures var n := |RunFrom(calls, env, i, pending).appended|;
            if Repeats(calls, env, i, pending) then n > |calls| - i else n == |calls| - i
    decreases |calls| - i
  {
    if i < |calls| {
      var call := CallPhase(calls, env[i], i, pending);
      CallCount(calls, env[i], i, pending);
      if !call.control.Leave? {
        BatchCount(calls, env, i + 1, call.pending);
      }
    }
  }

  /**
   A finished batch without injected messages holds exactly one answer for each call, in call order,
   if and only if no call it reached was answered by a hook while something made the rest be skipped.
   */
  lemma OneAnswerPerCallIff(calls: seq<string>, env: seq<Surroundings>, pending: seq<Message>)
    requires ProperIds(calls) && |env| == |calls|
    requires forall j | 0 <= j < |env| :: NothingInjected(env[j])
    requires RunFrom(calls, env, 0, pending).control == Leave(Finished)
    ensures var f := RunFrom(calls, env, 0, pending).appended;
            && (|f| == |calls| <==> !Repeats(calls, env, 0, pending))
            && (!Repeats(calls, env, 0, pending) ==> forall i | 0 <= i < |calls| :: IsTool(f[i]) && f[i].toolCallID == calls[i])
  {
    var f := RunFrom(calls, env, 0, pending).appended;
    BatchCount(calls, env, 0, pending);
    FinishedBatchAnswersEachCall(calls, env, pending);
    PruneKeeps(f, {});
    SubsequenceLength(Prune(f, {}), f);
  }
}
