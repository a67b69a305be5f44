/** Every reply that is sent to a call of the hook process reaches it. */
module HookReplies {
  import opened HookProcess

  /**
   What a channel and its call know of each other: a channel that is closed while its call has not
   given up has had its reply, and the reply is in the buffer until the call has it.
   */
  predicate ReplyOk(s: State, id: nat)
    requires id in s.channels && id in s.callers
  {
    var c, caller := s.channels[id], s.callers[id];
    && caller != Closed
    && (c.closed && caller != GaveUp ==> c.sends == 1)
    && (c.buffer != [] <==> c.sends == 1 && !caller.Answered?)
    && (caller.Answered? ==> c.sends == 1)
    && (caller == GaveUp ==> id !in s.pending)
  }

  ghost predicate RepliesOk(s: State) {
    Inv(s) && forall id | id in s.channels :: ReplyOk(s, id)
  }

  /** The call with this id is not touched by the step. */
  predicate Leaves(s: State, s': State, id: nat) {
    && id in s.channels && id in s.callers && id in s'.channels && id in s'.callers
    && s'.channels[id] == s.channels[id] && s'.callers[id] == s.callers[id]
    && (id in s'.pending ==> id in s.pending)
  }

  /** The call a step is about, or the new id. */
  function Touched(s: State, step: Step): nat {
    match step
    case Allocate => s.lastID + 1
    case Register(id) => id
    case Written(id) => id
    case Cancel(id) => id
    case RemovePending(id) => id
    case Receive(id) => id
    case ReaderSend => if s.reader.Idle? then 0 else s.reader.id
    case ReaderClose => if s.reader.Idle? then 0 else s.reader.id
    case FailSend => if ExitHolder(s).Idle? then 0 else ExitHolder(s).id
    case FailClose => if ExitHolder(s).Idle? then 0 else ExitHolder(s).id
    case _ => 0
  }

  lemma OthersAreLeft(s: State, step: Step, id: nat)
    requires Inv(s) && Enabled(s, step) && id in s.channels && id != Touched(s, step)
    ensures Leaves(s, Next(s, step), id)
  {
    assert id in s.callers.Keys;
  }

  lemma CallerStepKeepsReply(s: State, step: Step, id: nat)
    requires Inv(s) && Enabled(s, step) && IsStepOf(step, id) && id in s.channels && ReplyOk(s, id)
    ensures id in Next(s, step).channels && id in Next(s, step).callers && ReplyOk(Next(s, step), id)
  {
    assert ChannelOk(s, id);
  }

  lemma SendKeepsReply(s: State, step: Step, id: nat)
    requires Inv(s) && Enabled(s, step) && (step == ReaderSend || step == FailSend) && id == Touched(s, step)
    requires id in s.channels && ReplyOk(s, id)
    ensures id in Next(s, step).channels && id in Next(s, step).callers && ReplyOk(Next(s, step), id)
  {
    assert ChannelOk(s, id);
  }

  lemma CloseKeepsReply(s: State, step: Step, id: nat)
    requires Inv(s) && Enabled(s, step) && (step == ReaderClose || step == FailClose) && id == Touched(s, step)
    requires id in s.channels && ReplyOk(s, id)
    ensures id in Next(s, step).channels && id in Next(s, step).callers && ReplyOk(Next(s, step), id)
  {
    assert ChannelOk(s, id);
  }

  lemma StepKeepsReply(s: State, step: Step, id: nat)
    requires RepliesOk(s) && Enabled(s, step) && id in Next(s, step).channels
    ensures id in Next(s, step).callers && ReplyOk(Next(s, step), id)
  {
    if id !in s.channels {
      assert step == Allocate && id == s.lastID + 1;
    } else if id != Touched(s, step) {
      OthersAreLeft(s, step, id);
    } else if IsStepOf(step, id) {
      CallerStepKeepsReply(s, step, id);
    } else if step == ReaderSend || step == FailSend {
      SendKeepsReply(s, step, id);
    } else if step == ReaderClose || step == FailClose {
      CloseKeepsReply(s, step, id);
    }
  }

  lemma StepKeepsReplies(s: State, step: Step)
    requires RepliesOk(s) && Enabled(s, step)
    ensures RepliesOk(Next(s, step))
  {
    StepKeepsInv(s, step);
    forall id | id in Next(s, step).channels
      ensures ReplyOk(Next(s, step), id)
    {
      StepKeepsReply(s, step, id);
    }
  }

  lemma {:induction false} RunKeepsReplies(s: State, steps: seq<Step>)
    requires RepliesOk(s) && IsRun(s, steps)
    ensures RepliesOk(Run(s, steps))
    decreases |steps|
  {
    if steps != [] {
      StepKeepsReplies(s, steps[0]);
      RunKeepsReplies(Next(s, steps[0]), steps[1..]);
    }
  }

  /**
   No call ever sees its channel closed without a reply: the error for that case cannot occur. A
   waiting call that is no longer in the table and whose channel nobody holds has its reply at hand.
   */
  lemma NoCallIsClosed(steps: seq<Step>, id: nat)
    requires IsRun(INITIAL, steps)
    ensures var s := Run(INITIAL, steps);
            id in s.callers ==>
              && s.callers[id] != Closed
              && (s.callers[id] == Waiting && id !in s.pending && !Held(s, id) ==>
                    Enabled(s, Receive(id)) && Next(s, Receive(id)).callers[id].Answered?)
              && (s.callers[id].Answered? || s.callers[id].GaveUp? ==> id !in s.pending)
  {
    RunKeepsReplies(INITIAL, steps);
    var s := Run(INITIAL, steps);
    if id in s.callers {
      assert ChannelOk(s, id) && ReplyOk(s, id);
    }
  }

  // ----- A sent reply arrives -----

  /** The step sends this reply to this call. */
  predicate Sends(s: State, step: Step, id: nat, reply: Reply) {
    || (step == ReaderSend && s.reader == Holds(id, reply))
    || (step == FailSend && ExitHolder(s) == Holds(id, reply))
  }

  /** The reply waits in the buffer, or the call has it. */
  predicate HasReply(s: State, id: nat, reply: Reply) {
    && id in s.channels && id in s.callers && s.channels[id].sends == 1
    && if s.callers[id].Answered? then s.callers[id].reply == reply else s.channels[id].buffer == [reply]
  }

  lemma SendGivesReply(s: State, step: Step, id: nat, reply: Reply)
    requires RepliesOk(s) && Enabled(s, step) && Sends(s, step, id, reply)
    ensures HasReply(Next(s, step), id, reply)
  {
    assert ChannelOk(s, id) && ReplyOk(s, id);
    assert [] + [reply] == [reply];
  }

  /** After the only send nothing but the call itself touches the buffer. */
  lemma StepKeepsReplyInPlace(s: State, step: Step, id: nat, reply: Reply)
    requires RepliesOk(s) && Enabled(s, step) && HasReply(s, id, reply)
    ensures HasReply(Next(s, step), id, reply)
  {
    assert ChannelOk(s, id) && ReplyOk(s, id);
    if id != Touched(s, step) {
      OthersAreLeft(s, step, id);
    } else if step == ReaderSend || step == FailSend {
      NoSecondSend(s, step, id);
    } else if step == ReaderClose || step == FailClose {
      CloseLeavesReply(s, step, id, reply);
    } else {
      CallerLeavesReply(s, step, id, reply);
    }
  }

  lemma NoSecondSend(s: State, step: Step, id: nat)
    requires Inv(s) && Enabled(s, step) && (step == ReaderSend || step == FailSend)
    requires id == Touched(s, step) && id in s.channels
    ensures s.channels[id].sends == 0
  {
    assert ChannelOk(s, id);
  }

  lemma CloseLeavesReply(s: State, step: Step, id: nat, reply: Reply)
    requires RepliesOk(s) && Enabled(s, step) && HasReply(s, id, reply) && (step == ReaderClose || step == FailClose)
    ensures HasReply(Next(s, step), id, reply)
  {
  }

  lemma CallerLeavesReply(s: State, step: Step, id: nat, reply: Reply)
    requires RepliesOk(s) && Enabled(s, step) && HasReply(s, id, reply) && IsStepOf(step, id)
    ensures HasReply(Next(s, step), id, reply)
  {
    assert ChannelOk(s, id) && ReplyOk(s, id);
  }

  lemma {:induction false} RunKeepsReplyInPlace(s: State, steps: seq<Step>, id: nat, reply: Reply)
    requires RepliesOk(s) && IsRun(s, steps) && HasReply(s, id, reply)
    ensures RepliesOk(Run(s, steps)) && HasReply(Run(s, steps), id, reply)
    decreases |steps|
  {
    if steps != [] {
      StepKeepsReplyInPlace(s, steps[0], id, reply);
      StepKeepsReplies(s, steps[0]);
      RunKeepsReplyInPlace(Next(s, steps[0]), steps[1..], id, reply);
    }
  }

  /**
   Whatever happened before a reply is sent and whatever happens after: the call has exactly that
   reply, or, as long as it waits, can receive it at once - also after the channel has been closed.
   */
  lemma SentReplyArrives(before: seq<Step>, send: Step, after: seq<Step>, id: nat, reply: Reply)
    requires IsRun(INITIAL, before) && Enabled(Run(INITIAL, before), send)
    requires Sends(Run(INITIAL, before), send, id, reply)
    requires IsRun(Next(Run(INITIAL, before), send), after)
    ensures var s := Run(Next(Run(INITIAL, before), send), after);
            && id in s.callers
            && (s.callers[id].Answered? ==> s.callers[id].reply == reply)
            && (s.callers[id] == Waiting ==>
                  Enabled(s, Receive(id)) && Next(s, Receive(id)).callers[id] == Answered(reply))
  {
    RunKeepsReplies(INITIAL, before);
    var s := Run(INITIAL, before);
    SendGivesReply(s, send, id, reply);
    StepKeepsReplies(s, send);
    RunKeepsReplyInPlace(Next(s, send), after, id, reply);
  }

  // ----- The exit handler comes to its end -----

  /** From every state a process can exit in, the undisturbed exit handler empties the table. */
  lemma ExitEmptiesTable(s: State) returns (steps: seq<Step>)
    requires Inv(s) && s.exit.NotExited?
    ensures IsRun(s, steps) && Run(s, steps).exit == Done && Run(s, steps).pending == {}
  {
    StepKeepsInv(s, ProcessExit);
    var s1 := Next(s, ProcessExit);
    var rest := FailPendingIsSteps(s1);
    RunKeepsInv(s1, rest);
    var s2 := Run(s1, rest);
    RunOne(s2, FailDone, []);
    RunConcat(s1, rest, [FailDone]);
    RunOne(s, ProcessExit, rest + [FailDone]);
    steps := [ProcessExit] + (rest + [FailDone]);
  }

  // ----- A call comes to its end -----

  /** A whole call with its response. */
  function CallSteps(id: nat): seq<Step> {
    RequestSteps(id) + (ResponseSteps(id) + [Receive(id)])
  }

  function RequestSteps(id: nat): seq<Step> {
    [Allocate, Register(id), Written(id)]
  }

  function ResponseSteps(id: nat): seq<Step> {
    [ReadLine(id), ReaderSend, ReaderClose]
  }

  /** The run `steps` from `s` is possible and ends in `t`. */
  predicate RunsTo(s: State, steps: seq<Step>, t: State) {
    IsRun(s, steps) && Run(s, steps) == t
  }

  /** The state with one more call, which has its response. */
  function WithAnsweredCall(s: State): State {
    var id := s.lastID + 1;
    s.(lastID := id, callers := s.callers[id := Answered(Response(id))],
       channels := s.channels[id := Channel([], true, 1, 1)])
  }

  /** Whatever happened before: a call of a living process whose response comes has it in the end. */
  lemma CallIsAnswered(before: seq<Step>)
    requires IsRun(INITIAL, before)
    requires Run(INITIAL, before).exit.NotExited? && Run(INITIAL, before).reader.Idle?
    ensures var s := Run(INITIAL, before); RunsTo(s, CallSteps(s.lastID + 1), WithAnsweredCall(s))
  {
    RunKeepsInv(INITIAL, before);
    RunKeepsLate(INITIAL, before);
    WholeCall(Run(INITIAL, before));
  }

  lemma WholeCall(s: State)
    requires Inv(s) && s.exit.NotExited? && s.reader.Idle? && s.late == {}
    ensures RunsTo(s, CallSteps(s.lastID + 1), WithAnsweredCall(s))
  {
    var id := s.lastID + 1;
    var s1 := NewCall(s, id);
    var s2 := Respond(s1, s.pending, id);
    var s3 := GetResponse(s2, id);
    CallEnds(s, s1, s2, s3, id);
    RunsThen(s1, ResponseSteps(id), s2, [Receive(id)], s3);
    RunsThen(s, RequestSteps(id), s1, ResponseSteps(id) + [Receive(id)], s3);
  }

  lemma CallEnds(s: State, s1: State, s2: State, s3: State, id: nat)
    requires s1 == s.(lastID := id, pending := s.pending + {id}, callers := s.callers[id := Waiting],
                      channels := s.channels[id := FRESH])
    requires s2 == s1.(pending := s.pending, channels := s1.channels[id := Channel([Response(id)], true, 1, 1)])
    requires s3 == s2.(callers := s2.callers[id := Answered(Response(id))],
                       channels := s2.channels[id := Channel([], true, 1, 1)])
    requires id == s.lastID + 1
    ensures s3 == WithAnsweredCall(s)
  {
  }

  lemma RunsThen(s: State, a: seq<Step>, t: State, b: seq<Step>, u: State)
    requires RunsTo(s, a, t) && RunsTo(t, b, u)
    ensures RunsTo(s, a + b, u)
  {
    RunConcat(s, a, b);
  }

  lemma GetResponse(s: State, id: nat) returns (s': State)
    requires !s.panicked && Is(s, id, Waiting) && id in s.channels && s.channels[id] == Channel([Response(id)], true, 1, 1)
    ensures RunsTo(s, [Receive(id)], s')
    ensures s' == s.(callers := s.callers[id := Answered(Response(id))], channels := s.channels[id := Channel([], true, 1, 1)])
  {
    s' := Next(s, Receive(id));
    assert [Response(id)][1..] == [];
    RunOne(s, Receive(id), []);
  }

  lemma NewCall(s: State, id: nat) returns (s1: State)
    requires Inv(s) && s.exit.NotExited? && s.late == {} && id == s.lastID + 1
    ensures RunsTo(s, RequestSteps(id), s1)
    ensures id !in s.pending && s1.pending == s.pending + {id}
    ensures s1 == s.(lastID := id, pending := s1.pending, callers := s.callers[id := Waiting],
                     channels := s.channels[id := FRESH])
  {
    var a := Next(s, Allocate);
    var b := Next(a, Register(id));
    assert LockFree(a);
    s1 := Next(b, Written(id));
    RunOne(b, Written(id), []);
    RunOne(a, Register(id), [Written(id)]);
    RunOne(s, Allocate, [Register(id), Written(id)]);
  }

  lemma Respond(s: State, pending: set<nat>, id: nat) returns (s': State)
    requires !s.panicked && LockFree(s) && s.reader.Idle? && id != 0
    requires id !in pending && s.pending == pending + {id} && id in s.channels && s.channels[id] == FRESH
    ensures RunsTo(s, ResponseSteps(id), s')
    ensures s' == s.(pending := pending, channels := s.channels[id := Channel([Response(id)], true, 1, 1)])
  {
    var a := Next(s, ReadLine(id));
    var b := Next(a, ReaderSend);
    assert [] + [Response(id)] == [Response(id)];
    s' := Next(b, ReaderClose);
    RunOne(b, ReaderClose, []);
    RunOne(a, ReaderSend, [ReaderClose]);
    RunOne(s, ReadLine(id), [ReaderSend, ReaderClose]);
  }
}
