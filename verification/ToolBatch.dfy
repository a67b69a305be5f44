/**
 The tool batch of `runTurn`: for one assistant message with tool calls, the tool messages that
 hooks, approval, execution and steering append to the conversation.
 */
module ToolBatch {
  import opened Messages
  import opened Subsequences
  import opened TurnCut
  import opened Rollback

  datatype Injected = Nothing | SubTurnResult(content: string)

  /** What follows a result: queued steering, an interrupt request, a polled SubTurn result. */
  datatype Stage = Stage(content: string, steering: seq<Message>, interrupt: bool, injected: Injected)

  datatype BeforeHook =
    | Proceed                 // continue, modify, or respond without a result
    | Respond(stage: Stage)   // the hook supplies the result
    | Deny(denial: string)
    | HookAborts(hard: bool)

  datatype Approval = Approved | Refused(refusal: string)

  datatype Execution = Executed(stage: Stage) | ExecutionAborts(hard: bool)

  /** Everything the surroundings decide while one call is handled. */
  datatype Surroundings = Surroundings(abortRequested: bool, hook: BeforeHook, approval: Approval, execution: Execution)

  datatype Outcome = Finished | Errored | Aborted

  /** Where control goes after a phase: to the next call, on to this call's execution, or out. */
  datatype Control = NextCall | ThisCall | Leave(outcome: Outcome)

  /** `recorded` are the appended messages that the turn also records for its rollback. */
  datatype Phase = Phase(appended: seq<Message>, recorded: seq<Message>, pending: seq<Message>, control: Control)

  function Then(a: Phase, b: Phase): Phase {
    Phase(a.appended + b.appended, a.recorded + b.recorded, b.pending, b.control)
  }

  const SKIPPED := "skipped"

  /** The messages for the calls from `i` on when they are skipped. */
  function Skips(calls: seq<string>, i: nat): seq<Message>
    requires i <= |calls|
    decreases |calls| - i
  {
    if i == |calls| then [] else [ToolMessage(SKIPPED, calls[i])] + Skips(calls, i + 1)
  }

  function InjectedMessages(injected: Injected): seq<Message> {
    match injected
    case Nothing => []
    case SubTurnResult(content) => [UserMessage(content)]
  }

  predicate MustSkip(stage: Stage, pending: seq<Message>) {
    pending + stage.steering != [] || stage.interrupt
  }

  function Stopped(hard: bool, pending: seq<Message>): Phase {
    Phase([], [], pending, Leave(if hard then Aborted else Errored))
  }

  /** A result for call `i` and its checkpoint; `onSkip` is where a skip leads. */
  function ResultPhase(calls: seq<string>, i: nat, stage: Stage, pending: seq<Message>, onSkip: Control): Phase
    requires i < |calls|
  {
    var t := [ToolMessage(stage.content, calls[i])];
    if MustSkip(stage, pending) then
      Phase(t + Skips(calls, i + 1), t + Skips(calls, i + 1), pending + stage.steering, onSkip)
    else
      Phase(t + InjectedMessages(stage.injected), t, pending + stage.steering, NextCall)
  }

  /** The before-tool hook. Its `break` on a skip leaves the switch only: execution follows. */
  function HookPhase(calls: seq<string>, env: Surroundings, i: nat, pending: seq<Message>): Phase
    requires i < |calls|
  {
    if env.abortRequested then Stopped(true, pending)
    else
      match env.hook
      case HookAborts(hard) => Stopped(hard, pending)
      case Deny(denial) => Phase([ToolMessage(denial, calls[i])], [ToolMessage(denial, calls[i])], pending, NextCall)
      case Respond(stage) => ResultPhase(calls, i, stage, pending, ThisCall)
      case Proceed => Phase([], [], pending, ThisCall)
  }

  /** Approval and execution. Its `break` on a skip leaves the loop. */
  function ExecutionPhase(calls: seq<string>, env: Surroundings, i: nat, pending: seq<Message>): Phase
    requires i < |calls|
  {
    match env.approval
    case Refused(refusal) => Phase([ToolMessage(refusal, calls[i])], [ToolMessage(refusal, calls[i])], pending, NextCall)
    case Approved =>
      match env.execution
      case ExecutionAborts(hard) => Stopped(hard, pending)
      case Executed(stage) => ResultPhase(calls, i, stage, pending, Leave(Finished))
  }

  function CallPhase(calls: seq<string>, env: Surroundings, i: nat, pending: seq<Message>): Phase
    requires i < |calls|
  {
    var hook := HookPhase(calls, env, i, pending);
    if hook.control != ThisCall then hook
    else Then(hook, ExecutionPhase(calls, env, i, hook.pending))
  }

  /** The batch from call `i` on. */
  function RunFrom(calls: seq<string>, env: seq<Surroundings>, i: nat, pending: seq<Message>): (batch: Phase)
    requires |env| == |calls| && i <= |calls|
    ensures batch.control.Leave?
    decreases |calls| - i
  {
    if i == |calls| then Phase([], [], pending, Leave(Finished))
    else
      var call := CallPhase(calls, env[i], i, pending);
      if call.control.Leave? then call else Then(call, RunFrom(calls, env, i + 1, call.pending))
  }

  // ----- The code -----

  /** The four lists the batch works on. */
  datatype Log = Log(messages: seq<Message>, history: seq<Message>, persisted: seq<Message>, pending: seq<Message>)

  function Extend(log: Log, phase: Phase): Log {
    Log(log.messages + phase.appended, log.history + phase.appended, log.persisted + phase.recorded, phase.pending)
  }

  lemma ExtendThen(log: Log, a: Phase, b: Phase)
    ensures Extend(log, Then(a, b)) == Extend(Extend(log, a), b)
  {
    ConcatAssociates(log.messages, a.appended, b.appended);
    ConcatAssociates(log.history, a.appended, b.appended);
    ConcatAssociates(log.persisted, a.recorded, b.recorded);
  }

  /** The conversation of a running turn: what goes to the model, its session and its rollback. */
  class Conversation {
    var messages: seq<Message>
    var pendingMessages: seq<Message>
    const session: Session
    const turn: TurnState

    constructor (messages: seq<Message>, session: Session, turn: TurnState)
      ensures this.messages == messages && this.pendingMessages == []
      ensures this.session == session && this.turn == turn
    {
      this.messages, this.pendingMessages, this.session, this.turn := messages, [], session, turn;
    }

    ghost function View(): Log
      reads this, session, turn
    {
      Log(messages, session.history, turn.persistedMessages, pendingMessages)
    }

    method AppendRecorded(msg: Message)
      modifies this`messages, session`history, turn`persistedMessages
      ensures View() == Extend(old(View()), Phase([msg], [msg], pendingMessages, NextCall))
    {
      messages := messages + [msg];
      session.history := session.history + [msg];
      turn.persistedMessages := turn.persistedMessages + [msg];
    }

    /** Polls one SubTurn result; it is written to the session but not recorded. */
    method AppendInjected(injected: Injected)
      modifies this`messages, session`history
      ensures View() == Extend(old(View()), Phase(InjectedMessages(injected), [], pendingMessages, NextCall))
    {
      match injected {
        case Nothing =>
        case SubTurnResult(content) =>
          messages := messages + [UserMessage(content)];
          session.history := session.history + [UserMessage(content)];
      }
    }

    method SkipFrom(calls: seq<string>, from: nat)
      requires from <= |calls|
      modifies this`messages, session`history, turn`persistedMessages
      ensures View() == Extend(old(View()), Phase(Skips(calls, from), Skips(calls, from), pendingMessages, NextCall))
    {
      for j := from to |calls|
        invariant pendingMessages == old(pendingMessages)
        invariant Extend(View(), Phase(Skips(calls, j), Skips(calls, j), pendingMessages, NextCall)) ==
                  Extend(old(View()), Phase(Skips(calls, from), Skips(calls, from), pendingMessages, NextCall))
      {
        var skipped := ToolMessage(SKIPPED, calls[j]);
        ghost var rest := Phase(Skips(calls, j + 1), Skips(calls, j + 1), pendingMessages, NextCall);
        ExtendThen(View(), Phase([skipped], [skipped], pendingMessages, NextCall), rest);
        AppendRecorded(skipped);
      }
    }

    /** Queues the steering that arrived after a result, and decides whether to skip the rest. */
    method Checkpoint(stage: Stage) returns (skip: bool)
      modifies this`pendingMessages
      ensures pendingMessages == old(pendingMessages) + stage.steering
      ensures skip == MustSkip(stage, old(pendingMessages))
    {
      if |stage.steering| > 0 {
        pendingMessages := pendingMessages + stage.steering;
      }
      skip := |pendingMessages| > 0 || stage.interrupt;
    }

    method EmitResult(calls: seq<string>, i: nat, stage: Stage, onSkip: Control) returns (control: Control)
      requires i < |calls|
      modifies this`messages, this`pendingMessages, session`history, turn`persistedMessages
      ensures View() == Extend(old(View()), ResultPhase(calls, i, stage, old(pendingMessages), onSkip))
      ensures control == ResultPhase(calls, i, stage, old(pendingMessages), onSkip).control
    {
      var t := ToolMessage(stage.content, calls[i]);
      ghost var pending := pendingMessages + stage.steering;
      ghost var first := Phase([t], [t], pending, NextCall);
      ghost var skips := Phase(Skips(calls, i + 1), Skips(calls, i + 1), pending, NextCall);
      ghost var injects := Phase(InjectedMessages(stage.injected), [], pending, NextCall);
      ExtendThen(View(), first, skips);
      ExtendThen(View(), first, injects);
      AppendRecorded(t);
      var skip := Checkpoint(stage);
      if skip {
        SkipFrom(calls, i + 1);
        control := onSkip;
      } else {
        AppendInjected(stage.injected);
        control := NextCall;
      }
    }

    method RunHook(calls: seq<string>, env: Surroundings, i: nat) returns (control: Control)
      requires i < |calls|
      modifies this`messages, this`pendingMessages, session`history, turn`persistedMessages
      ensures View() == Extend(old(View()), HookPhase(calls, env, i, old(pendingMessages)))
      ensures control == HookPhase(calls, env, i, old(pendingMessages)).control
    {
      if env.abortRequested {
        return Leave(Aborted);
      }
      match env.hook {
        case HookAborts(hard) =>
          return Leave(if hard then Aborted else Errored);
        case Deny(denial) =>
          AppendRecorded(ToolMessage(denial, calls[i]));
          return NextCall;
        case Respond(stage) =>
          control := EmitResult(calls, i, stage, ThisCall);
        case Proceed =>
          return ThisCall;
      }
    }

    method ApproveAndExecute(calls: seq<string>, env: Surroundings, i: nat) returns (control: Control)
      requires i < |calls|
      modifies this`messages, this`pendingMessages, session`history, turn`persistedMessages
      ensures View() == Extend(old(View()), ExecutionPhase(calls, env, i, old(pendingMessages)))
      ensures control == ExecutionPhase(calls, env, i, old(pendingMessages)).control
    {
      match env.approval {
        case Refused(refusal) =>
          AppendRecorded(ToolMessage(refusal, calls[i]));
          return NextCall;
        case Approved =>
      }
      match env.execution {
        case ExecutionAborts(hard) =>
          return Leave(if hard then Aborted else Errored);
        case Executed(stage) =>
          control := EmitResult(calls, i, stage, Leave(Finished));
      }
    }

    method HandleCall(calls: seq<string>, env: Surroundings, i: nat) returns (control: Control)
      requires i < |calls|
      modifies this`messages, this`pendingMessages, session`history, turn`persistedMessages
      ensures View() == Extend(old(View()), CallPhase(calls, env, i, old(pendingMessages)))
      ensures control == CallPhase(calls, env, i, old(pendingMessages)).control
    {
      ghost var hook := HookPhase(calls, env, i, pendingMessages);
      ExtendThen(View(), hook, ExecutionPhase(calls, env, i, hook.pending));
      control := RunHook(calls, env, i);
      if control == ThisCall {
        control := ApproveAndExecute(calls, env, i);
      }
    }

    /** The loop over the calls of one assistant message. */
    method RunToolBatch(calls: seq<string>, env: seq<Surroundings>) returns (outcome: Outcome)
      requires |env| == |calls|
      modifies this`messages, this`pendingMessages, session`history, turn`persistedMessages
      ensures View() == Extend(old(View()), RunFrom(calls, env, 0, old(pendingMessages)))
      ensures Leave(outcome) == RunFrom(calls, env, 0, old(pendingMessages)).control
    {
      ghost var target := Extend(View(), RunFrom(calls, env, 0, pendingMessages));
      ghost var control' := RunFrom(calls, env, 0, pendingMessages).control;
      for i := 0 to |calls|
        invariant Extend(View(), RunFrom(calls, env, i, pendingMessages)) == target
        invariant RunFrom(calls, env, i, pendingMessages).control == control'
      {
        ghost var call := CallPhase(calls, env[i], i, pendingMessages);
        ExtendThen(View(), call, RunFrom(calls, env, i + 1, call.pending));
        var control := HandleCall(calls, env[i], i);
        match control {
          case Leave(o) =>
            return o;
          case _ =>
        }
      }
      outcome := Finished;
    }
  }
}
