/**
 The pending-call table of the JSON-RPC hook process (`hook_process.go`): calls, the reader, the
 exit handler and cancellations interleave at every lock and channel operation.
 */
module HookProcess {

  /** What can be sent to a waiting call: the response with an id, or the notice of the exit. */
  datatype Reply = Response(id: nat) | ExitNotice

  /** A channel of capacity one; sends and closes are counted. */
  datatype Channel = Channel(buffer: seq<Reply>, closed: bool, sends: nat, closes: nat)

  const FRESH := Channel([], false, 0, 0)

  /** The progress of one `call`. */
  datatype Caller =
    | Allocated                  // has its id and its channel
    | Registered                 // has put the channel into the table, is writing the request
    | Waiting                    // in the select
    | Cancelling                 // about to remove itself after a failed write or a cancellation
    | Answered(reply: Reply)
    | Closed                     // the channel was closed without a reply
    | GaveUp

  /** A goroutine that has taken the channel `id` out of the table: to send on it, then close it. */
  datatype Holder = Idle | Holds(id: nat, reply: Reply) | HasSent(id: nat)

  datatype Exit = NotExited | Failing(holder: Holder) | Done

  /**
   `late` are the calls that entered the table after the exit handler had emptied it. By then
   `Wait` has closed the pipe to the process, so that their write fails.
   */
  datatype State = State(
    lastID: nat, callers: map<nat, Caller>, pending: set<nat>, channels: map<nat, Channel>,
    reader: Holder, exit: Exit, panicked: bool, late: set<nat>)

  datatype Step =
    | Allocate | Register(id: nat) | Written(id: nat) | Cancel(id: nat) | RemovePending(id: nat) | Receive(id: nat)
    | ReadLine(id: nat) | ReaderSend | ReaderClose
    | ProcessExit | FailTake(id: nat) | FailSend | FailClose | FailDone

  const INITIAL := State(0, map[], {}, map[], Idle, NotExited, false, {})

  // ----- Channels as Go runs them -----

  predicate CanSend(s: State, id: nat) {
    id in s.channels && (s.channels[id].closed || s.channels[id].buffer == [])
  }

  function Send(s: State, id: nat, reply: Reply): State
    requires id in s.channels
  {
    var c := s.channels[id];
    if c.closed then s.(panicked := true)
    else s.(channels := s.channels[id := c.(buffer := c.buffer + [reply], sends := c.sends + 1)])
  }

  function Close(s: State, id: nat): State
    requires id in s.channels
  {
    var c := s.channels[id];
    if c.closed then s.(panicked := true)
    else s.(channels := s.channels[id := c.(closed := true, closes := c.closes + 1)])
  }

  // ----- Steps -----

  /** The table's mutex is free: the exit handler holds it until it has emptied the table. */
  predicate LockFree(s: State) {
    !s.exit.Failing?
  }

  predicate Is(s: State, id: nat, caller: Caller) {
    id in s.callers && s.callers[id] == caller
  }

  predicate Enabled(s: State, step: Step) {
    !s.panicked &&
    match step
    case Allocate => true
    case Register(id) => LockFree(s) && Is(s, id, Allocated)
    case Written(id) => Is(s, id, Registered) && id !in s.late
    case Cancel(id) => Is(s, id, Registered) || Is(s, id, Waiting)
    case RemovePending(id) => LockFree(s) && Is(s, id, Cancelling) && id in s.channels
    case Receive(id) => Is(s, id, Waiting) && id in s.channels && (s.channels[id].buffer != [] || s.channels[id].closed)
    case ReadLine(id) => LockFree(s) && s.reader.Idle?
    case ReaderSend => s.reader.Holds? && CanSend(s, s.reader.id)
    case ReaderClose => s.reader.HasSent? && s.reader.id in s.channels
    case ProcessExit => s.exit.NotExited?
    case FailTake(id) => s.exit == Failing(Idle) && id in s.pending
    case FailSend => s.exit.Failing? && s.exit.holder.Holds? && CanSend(s, s.exit.holder.id)
    case FailClose => s.exit.Failing? && s.exit.holder.HasSent? && s.exit.holder.id in s.channels
    case FailDone => s.exit == Failing(Idle) && s.pending == {}
  }

  function Next(s: State, step: Step): State
    requires Enabled(s, step)
  {
    match step
    case Allocate =>
      var id := s.lastID + 1;
      s.(lastID := id, callers := s.callers[id := Allocated], channels := s.channels[id := FRESH])
    case Register(id) =>
      s.(pending := s.pending + {id}, callers := s.callers[id := Registered],
         late := if s.exit.Done? then s.late + {id} else s.late)
    case Written(id) => s.(callers := s.callers[id := Waiting])
    case Cancel(id) => s.(callers := s.callers[id := Cancelling])
    case RemovePending(id) =>
      var s' := s.(callers := s.callers[id := GaveUp]);
      if id in s.pending then Close(s'.(pending := s.pending - {id}), id) else s'
    case Receive(id) =>
      var c := s.channels[id];
      if c.buffer == [] then s.(callers := s.callers[id := Closed])
      else s.(channels := s.channels[id := c.(buffer := c.buffer[1..])],
              callers := s.callers[id := Answered(c.buffer[0])])
    case ReadLine(id) =>
      // id 0 is a notification; an unknown id belongs to a call that has gone
      if id != 0 && id in s.pending then s.(pending := s.pending - {id}, reader := Holds(id, Response(id))) else s
    case ReaderSend => Send(s, s.reader.id, s.reader.reply).(reader := HasSent(s.reader.id))
    case ReaderClose => Close(s, s.reader.id).(reader := Idle)
    case ProcessExit => s.(exit := Failing(Idle))
    case FailTake(id) => s.(pending := s.pending - {id}, exit := Failing(Holds(id, ExitNotice)))
    case FailSend => Send(s, s.exit.holder.id, s.exit.holder.reply).(exit := Failing(HasSent(s.exit.holder.id)))
    case FailClose => Close(s, s.exit.holder.id).(exit := Failing(Idle))
    case FailDone => s.(exit := Done)
  }

  predicate IsRun(s: State, steps: seq<Step>)
    decreases |steps|
  {
    steps == [] || (Enabled(s, steps[0]) && IsRun(Next(s, steps[0]), steps[1..]))
  }

  function Run(s: State, steps: seq<Step>): State
    requires IsRun(s, steps)
    decreases |steps|
  {
    if steps == [] then s else Run(Next(s, steps[0]), steps[1..])
  }

  // ----- The code -----

  /** `nextID`, `pending` and the response channels of a `ProcessHook`. */
  class PendingTable {
    var nextID: nat
    var pending: set<nat>
    var channels: map<nat, Channel>

    ghost predicate Valid()
      reads this
    {
      (forall id: nat :: id in channels <==> 1 <= id <= nextID) &&
      forall id | id in pending :: id in channels && channels[id] == FRESH
    }

    constructor ()
      ensures Valid() && pending == {} && nextID == 0
    {
      nextID, pending, channels := 0, {}, map[];
    }

    /** The first half of `call`: a new id with a new channel, entered into the table. */
    method RegisterCall() returns (id: nat)
      requires Valid()
      modifies this
      ensures Valid() && id == old(nextID) + 1 == nextID
      ensures pending == old(pending) + {id} && channels == old(channels)[id := FRESH]
    {
      nextID := nextID + 1;
      id := nextID;
      channels := channels[id := FRESH];
      pending := pending + {id};
    }

    /** Sends the only message of a channel and closes it. */
    method Finish(id: nat, reply: Reply)
      requires id in channels && channels[id] == FRESH
      modifies this`channels
      ensures channels == old(channels)[id := Channel([reply], true, 1, 1)]
    {
      var c := channels[id];
      c := c.(buffer := c.buffer + [reply], sends := c.sends + 1);
      c := c.(closed := true, closes := c.closes + 1);
      assert c.buffer == [reply];
      channels := channels[id := c];
    }

    /** One decoded line of `readLoop`. */
    method HandleLine(id: nat) returns (ok: bool)
      requires Valid()
      modifies this`pending, this`channels
      ensures Valid() && ok == (id != 0 && id in old(pending))
      ensures pending == old(pending) - (if ok then {id} else {})
      ensures channels == if ok then old(channels)[id := Channel([Response(id)], true, 1, 1)] else old(channels)
    {
      ok := id != 0 && id in pending;
      if ok {
        pending := pending - {id};
        Finish(id, Response(id));
      }
    }

    method RemovePendingCall(id: nat)
      requires Valid()
      modifies this`pending, this`channels
      ensures Valid() && pending == old(pending) - {id}
      ensures channels == if id in old(pending) then old(channels)[id := Channel([], true, 0, 1)] else old(channels)
    {
      if id in pending {
        pending := pending - {id};
        channels := channels[id := channels[id].(closed := true, closes := channels[id].closes + 1)];
      }
    }

    /** Every pending call is told about the exit, and nothing else changes. */
    method FailPending()
      requires Valid()
      modifies this`pending, this`channels
      ensures Valid() && pending == {} && AllFailed(old(pending), old(channels), channels)
    {
      while pending != {}
        invariant pending <= old(pending) && Valid() && channels.Keys == old(channels).Keys
        invariant forall id | id in channels ::
                    channels[id] == if id in old(pending) && id !in pending then Channel([ExitNotice], true, 1, 1)
                                    else old(channels)[id]
        decreases |pending|
      {
        var id :| id in pending;
        pending := pending - {id};
        Finish(id, ExitNotice);
      }
    }
  }

  // ----- The invariant -----

  predicate HeldBy(h: Holder, id: nat) {
    !h.Idle? && h.id == id
  }

  function ExitHolder(s: State): Holder {
    if s.exit.Failing? then s.exit.holder else Idle
  }

  predicate Held(s: State, id: nat) {
    HeldBy(s.reader, id) || HeldBy(ExitHolder(s), id)
  }

  predicate Sent(s: State, id: nat) {
    s.reader == HasSent(id) || ExitHolder(s) == HasSent(id)
  }

  /** A channel is owned by its caller, the table or one holder, and closed once it has no owner. */
  predicate ChannelOk(s: State, id: nat)
    requires id in s.channels && id in s.callers
  {
    var c, caller := s.channels[id], s.callers[id];
    && c.sends <= 1 && c.closes <= 1 && |c.buffer| <= c.sends
    && (c.closed <==> c.closes == 1)
    && (caller == Allocated ==> id !in s.pending && !Held(s, id) && c == FRESH)
    && (id in s.pending ==> !Held(s, id) && c == FRESH)
    && (Held(s, id) ==> !c.closed && (Sent(s, id) <==> c.sends == 1))
    && !(HeldBy(s.reader, id) && HeldBy(ExitHolder(s), id))
    && (caller != Allocated && id !in s.pending && !Held(s, id) ==> c.closed)
    && (forall r | r in c.buffer :: r == Response(id) || r == ExitNotice)
    && (caller.Answered? ==> caller.reply == Response(id) || caller.reply == ExitNotice)
    && (caller == Closed ==> c.closed)
  }

  predicate HolderOk(h: Holder) {
    h.Holds? ==> h.reply == Response(h.id) || h.reply == ExitNotice
  }

  ghost predicate Inv(s: State) {
    && !s.panicked
    && (forall id: nat :: id in s.channels <==> 1 <= id <= s.lastID)
    && s.callers.Keys == s.channels.Keys
    && s.pending <= s.channels.Keys
    && (!s.reader.Idle? ==> s.reader.id in s.channels)
    && (!ExitHolder(s).Idle? ==> ExitHolder(s).id in s.channels)
    && HolderOk(s.reader) && HolderOk(ExitHolder(s))
    && (forall id | id in s.channels :: ChannelOk(s, id))
  }

  /** A step keeps the invariant when it does so for the one channel it touches. */
  lemma UntouchedChannels(s: State, s': State, touched: nat)
    requires s.callers.Keys == s.channels.Keys && s'.callers.Keys == s'.channels.Keys
    requires forall id | id in s.channels :: ChannelOk(s, id)
    requires s'.channels.Keys - {touched} == s.channels.Keys - {touched}
    requires forall id | id in s.channels && id in s'.channels && id != touched ::
               && s'.channels[id] == s.channels[id] && s'.callers[id] == s.callers[id]
               && (id in s'.pending <==> id in s.pending)
               && (HeldBy(s'.reader, id) <==> HeldBy(s.reader, id))
               && (HeldBy(ExitHolder(s'), id) <==> HeldBy(ExitHolder(s), id))
               && (Sent(s', id) <==> Sent(s, id))
    requires touched in s'.channels ==> ChannelOk(s', touched)
    ensures forall id | id in s'.channels :: ChannelOk(s', id)
  {
    forall id | id in s'.channels
      ensures ChannelOk(s', id)
    {
      if id != touched {
        assert id in s'.channels.Keys - {touched};
        assert ChannelOk(s, id);
      }
    }
  }

  lemma AllocateKeepsInv(s: State)
    requires Inv(s) && Enabled(s, Allocate)
    ensures Inv(Next(s, Allocate))
  {
    UntouchedChannels(s, Next(s, Allocate), s.lastID + 1);
  }

  lemma RegisterKeepsInv(s: State, id: nat)
    requires Inv(s) && Enabled(s, Register(id))
    ensures Inv(Next(s, Register(id)))
  {
    assert ChannelOk(s, id);
    UntouchedChannels(s, Next(s, Register(id)), id);
  }

  lemma WrittenKeepsInv(s: State, id: nat)
    requires Inv(s) && Enabled(s, Written(id))
    ensures Inv(Next(s, Written(id)))
  {
    assert ChannelOk(s, id);
    UntouchedChannels(s, Next(s, Written(id)), id);
  }

  lemma CancelKeepsInv(s: State, id: nat)
    requires Inv(s) && Enabled(s, Cancel(id))
    ensures Inv(Next(s, Cancel(id)))
  {
    assert ChannelOk(s, id);
    UntouchedChannels(s, Next(s, Cancel(id)), id);
  }

  lemma RemovePendingKeepsInv(s: State, id: nat)
    requires Inv(s) && Enabled(s, RemovePending(id))
    ensures Inv(Next(s, RemovePending(id)))
  {
    assert ChannelOk(s, id);
    var s' := Next(s, RemovePending(id));
    assert s'.channels.Keys == s.channels.Keys && s'.callers.Keys == s.callers.Keys;
    UntouchedChannels(s, s', id);
  }

  lemma ReceiveKeepsChannel(s: State, id: nat)
    requires id in s.channels && id in s.callers && ChannelOk(s, id) && Enabled(s, Receive(id))
    ensures ChannelOk(Next(s, Receive(id)), id)
  {
    var c := s.channels[id];
    if c.buffer != [] {
      assert c.buffer[0] in c.buffer;
      assert c.buffer[1..] == [];
    }
  }

  lemma ReceiveKeepsInv(s: State, id: nat)
    requires Inv(s) && Enabled(s, Receive(id))
    ensures Inv(Next(s, Receive(id)))
  {
    ReceiveKeepsChannel(s, id);
    var s' := Received(s, id);
    UntouchedChannels(s, s', id);
  }

  lemma Received(s: State, id: nat) returns (s': State)
    requires Enabled(s, Receive(id))
    ensures s' == Next(s, Receive(id)) == s.(channels := s'.channels, callers := s'.callers)
    ensures s'.channels.Keys == s.channels.Keys && s'.callers.Keys == s.callers.Keys + {id}
    ensures forall i | i in s.channels && i != id :: s'.channels[i] == s.channels[i]
    ensures forall i | i in s.callers && i != id :: s'.callers[i] == s.callers[i]
  {
    s' := Next(s, Receive(id));
  }

  lemma ReadLineKeepsInv(s: State, id: nat)
    requires Inv(s) && Enabled(s, ReadLine(id))
    ensures Inv(Next(s, ReadLine(id)))
  {
    if id in s.channels {
      assert ChannelOk(s, id);
    }
    UntouchedChannels(s, Next(s, ReadLine(id)), id);
  }

  lemma ReaderSendKeepsInv(s: State)
    requires Inv(s) && Enabled(s, ReaderSend)
    ensures Inv(Next(s, ReaderSend))
  {
    assert ChannelOk(s, s.reader.id);
    UntouchedChannels(s, Next(s, ReaderSend), s.reader.id);
  }

  lemma ReaderCloseKeepsInv(s: State)
    requires Inv(s) && Enabled(s, ReaderClose)
    ensures Inv(Next(s, ReaderClose))
  {
    assert ChannelOk(s, s.reader.id);
    UntouchedChannels(s, Next(s, ReaderClose), s.reader.id);
  }

  lemma FailTakeKeepsInv(s: State, id: nat)
    requires Inv(s) && Enabled(s, FailTake(id))
    ensures Inv(Next(s, FailTake(id)))
  {
    assert ChannelOk(s, id);
    UntouchedChannels(s, Next(s, FailTake(id)), id);
  }

  lemma FailSendKeepsInv(s: State)
    requires Inv(s) && Enabled(s, FailSend)
    ensures Inv(Next(s, FailSend))
  {
    assert ChannelOk(s, s.exit.holder.id);
    UntouchedChannels(s, Next(s, FailSend), s.exit.holder.id);
  }

  lemma FailCloseKeepsInv(s: State)
    requires Inv(s) && Enabled(s, FailClose)
    ensures Inv(Next(s, FailClose))
  {
    assert ChannelOk(s, s.exit.holder.id);
    UntouchedChannels(s, Next(s, FailClose), s.exit.holder.id);
  }

  lemma StepKeepsInv(s: State, step: Step)
    requires Inv(s) && Enabled(s, step)
    ensures Inv(Next(s, step))
  {
    match step {
      case Allocate => AllocateKeepsInv(s);
      case Register(id) => RegisterKeepsInv(s, id);
      case Written(id) => WrittenKeepsInv(s, id);
      case Cancel(id) => CancelKeepsInv(s, id);
      case RemovePending(id) => RemovePendingKeepsInv(s, id);
      case Receive(id) => ReceiveKeepsInv(s, id);
      case ReadLine(id) => ReadLineKeepsInv(s, id);
      case ReaderSend => ReaderSendKeepsInv(s);
      case ReaderClose => ReaderCloseKeepsInv(s);
      case FailTake(id) => FailTakeKeepsInv(s, id);
      case FailSend => FailSendKeepsInv(s);
      case FailClose => FailCloseKeepsInv(s);
      case ProcessExit => UntouchedChannels(s, Next(s, step), 0);
      case FailDone => UntouchedChannels(s, Next(s, step), 0);
    }
  }

  lemma {:induction false} RunKeepsInv(s: State, steps: seq<Step>)
    requires Inv(s) && IsRun(s, steps)
    ensures Inv(Run(s, steps))
    decreases |steps|
  {
    if steps != [] {
      StepKeepsInv(s, steps[0]);
      RunKeepsInv(Next(s, steps[0]), steps[1..]);
    }
  }

  // ----- Safety over every interleaving -----

  /** No send on a closed channel, no double close, at most one send and one close per channel. */
  lemma ChannelsAreUsedOnce(steps: seq<Step>, id: nat)
    requires IsRun(INITIAL, steps)
    ensures var s := Run(INITIAL, steps);
            !s.panicked && (id in s.channels ==> s.channels[id].sends <= 1 && s.channels[id].closes <= 1)
  {
    RunKeepsInv(INITIAL, steps);
    var s := Run(INITIAL, steps);
    if id in s.channels {
      assert ChannelOk(s, id);
    }
  }

  /** Whoever has taken a channel out of the table can send on it at once and never panics. */
  lemma SendsNeverBlock(steps: seq<Step>)
    requires IsRun(INITIAL, steps)
    ensures var s := Run(INITIAL, steps);
            && (s.reader.Holds? ==> Enabled(s, ReaderSend) && !Next(s, ReaderSend).panicked)
            && (s.reader.HasSent? ==> Enabled(s, ReaderClose) && !Next(s, ReaderClose).panicked)
            && (ExitHolder(s).Holds? ==> Enabled(s, FailSend) && !Next(s, FailSend).panicked)
            && (ExitHolder(s).HasSent? ==> Enabled(s, FailClose) && !Next(s, FailClose).panicked)
  {
    RunKeepsInv(INITIAL, steps);
    ReaderIsFree(Run(INITIAL, steps));
    ExitHandlerIsFree(Run(INITIAL, steps));
  }

  lemma ReaderIsFree(s: State)
    requires Inv(s)
    ensures s.reader.Holds? ==> Enabled(s, ReaderSend) && !Next(s, ReaderSend).panicked
    ensures s.reader.HasSent? ==> Enabled(s, ReaderClose) && !Next(s, ReaderClose).panicked
  {
    if !s.reader.Idle? {
      assert ChannelOk(s, s.reader.id);
    }
  }

  lemma ExitHandlerIsFree(s: State)
    requires Inv(s)
    ensures ExitHolder(s).Holds? ==> Enabled(s, FailSend) && !Next(s, FailSend).panicked
    ensures ExitHolder(s).HasSent? ==> Enabled(s, FailClose) && !Next(s, FailClose).panicked
  {
    if !ExitHolder(s).Idle? {
      assert ChannelOk(s, ExitHolder(s).id);
    }
  }

  /** JSON-RPC 2.0, section 5: a call is answered by the response with its own id, or by the exit. */
  lemma RepliesMatchCalls(steps: seq<Step>, id: nat)
    requires IsRun(INITIAL, steps)
    ensures var s := Run(INITIAL, steps);
            id in s.callers && s.callers[id].Answered? ==>
              s.callers[id].reply == Response(id) || s.callers[id].reply == ExitNotice
  {
    RunKeepsInv(INITIAL, steps);
    var s := Run(INITIAL, steps);
    if id in s.callers {
      assert ChannelOk(s, id);
    }
  }

  /**
   No wake-up is lost: a waiting call can only be stuck while it is in the table, or for the few
   steps until the goroutine that took it out has sent and closed.
   */
  lemma WaitersWakeUp(steps: seq<Step>, id: nat)
    requires IsRun(INITIAL, steps)
    ensures var s := Run(INITIAL, steps);
            Is(s, id, Waiting) && id !in s.pending && !Held(s, id) ==> Enabled(s, Receive(id))
  {
    RunKeepsInv(INITIAL, steps);
    var s := Run(INITIAL, steps);
    if Is(s, id, Waiting) {
      assert ChannelOk(s, id);
    }
  }

  // ----- Calls after the exit -----

  /** Once the exit handler is done only late calls are in the table, and those never wait. */
  ghost predicate LateOk(s: State) {
    && (!s.exit.Done? ==> s.late == {})
    && (s.exit.Done? ==> s.pending <= s.late)
    && forall id | id in s.late :: id in s.callers && NeverWaits(s.callers[id])
  }

  /** The call that a step of a caller is about. */
  predicate IsStepOf(step: Step, id: nat) {
    match step
    case Register(i) => i == id
    case Written(i) => i == id
    case Cancel(i) => i == id
    case RemovePending(i) => i == id
    case Receive(i) => i == id
    case _ => false
  }

  predicate NeverWaits(caller: Caller) {
    caller.Registered? || caller.Cancelling? || caller.GaveUp?
  }

  lemma OtherCallersStay(s: State, step: Step, id: nat)
    requires Enabled(s, step) && !IsStepOf(step, id) && id in s.callers && id != s.lastID + 1
    ensures var s' := Next(s, step);
            id in s'.callers && s'.callers[id] == s.callers[id] && (id in s'.late <==> id in s.late)
  {
  }

  lemma LateCallNeverWaits(s: State, step: Step, id: nat)
    requires Enabled(s, step) && IsStepOf(step, id) && id in Next(s, step).late
    requires id in s.late ==> id in s.callers && NeverWaits(s.callers[id])
    ensures var s' := Next(s, step); id in s'.callers && NeverWaits(s'.callers[id])
  {
  }

  lemma LateNeverWaits(s: State, step: Step, id: nat)
    requires Inv(s) && LateOk(s) && Enabled(s, step) && id in Next(s, step).late
    ensures var s' := Next(s, step); id in s'.callers && NeverWaits(s'.callers[id])
  {
    if IsStepOf(step, id) {
      LateCallNeverWaits(s, step, id);
    } else {
      assert id in s.late;
      assert s.lastID + 1 !in s.channels;
      OtherCallersStay(s, step, id);
    }
  }

  lemma StepKeepsLate(s: State, step: Step)
    requires Inv(s) && LateOk(s) && Enabled(s, step)
    ensures LateOk(Next(s, step))
  {
    forall id | id in Next(s, step).late
      ensures var s' := Next(s, step); id in s'.callers && NeverWaits(s'.callers[id])
    {
      LateNeverWaits(s, step, id);
    }
  }

  lemma {:induction false} RunKeepsLate(s: State, steps: seq<Step>)
    requires Inv(s) && LateOk(s) && IsRun(s, steps)
    ensures LateOk(Run(s, steps))
    decreases |steps|
  {
    if steps != [] {
      StepKeepsInv(s, steps[0]);
      StepKeepsLate(s, steps[0]);
      RunKeepsLate(Next(s, steps[0]), steps[1..]);
    }
  }

  /**
   Nobody waits for a dead process: once the exit handler is done, a waiting call can receive at
   once, or as soon as the reader, which nothing holds up, has sent and closed the call's channel.
   */
  lemma NobodyWaitsAfterExit(steps: seq<Step>, id: nat)
    requires IsRun(INITIAL, steps)
    ensures var s := Run(INITIAL, steps);
            s.exit.Done? && Is(s, id, Waiting) ==> id !in s.pending && (Enabled(s, Receive(id)) || HeldBy(s.reader, id))
  {
    RunKeepsInv(INITIAL, steps);
    RunKeepsLate(INITIAL, steps);
    WaitersWakeUp(steps, id);
  }

  // ----- The methods are runs of the steps -----

  lemma RegisterCallIsSteps(s: State)
    requires Inv(s) && LockFree(s)
    ensures var id := s.lastID + 1;
            var s' := Next(s, Allocate);
            && Enabled(s', Register(id))
            && var s'' := Next(s', Register(id));
               s''.lastID == id && s''.pending == s.pending + {id} && s''.channels == s.channels[id := FRESH]
  {
  }

  lemma HandleLineIsSteps(s: State, id: nat)
    requires Inv(s) && LockFree(s) && s.reader.Idle?
    ensures var s1 := Next(s, ReadLine(id));
            if id != 0 && id in s.pending then
              && Enabled(s1, ReaderSend) && Enabled(Next(s1, ReaderSend), ReaderClose)
              && var s3 := Next(Next(s1, ReaderSend), ReaderClose);
                 && s3.pending == s.pending - {id} && s3.reader.Idle?
                 && s3.channels == s.channels[id := Channel([Response(id)], true, 1, 1)]
            else s1 == s
  {
    if id in s.pending {
      assert ChannelOk(s, id);
      assert [] + [Response(id)] == [Response(id)];
    }
  }

  lemma RemovePendingCallIsStep(s: State, id: nat)
    requires Inv(s) && Enabled(s, RemovePending(id))
    ensures var s' := Next(s, RemovePending(id));
            && s'.pending == s.pending - {id} && s'.callers == s.callers[id := GaveUp]
            && s'.channels == if id in s.pending then s.channels[id := Channel([], true, 0, 1)] else s.channels
  {
    assert ChannelOk(s, id);
  }

  /** The exit handler takes, answers and closes one channel. */
  lemma FailOneIsSteps(s: State, id: nat)
    requires Inv(s) && s.exit == Failing(Idle) && id in s.pending
    ensures var steps := [FailTake(id), FailSend, FailClose]; IsRun(s, steps) && Run(s, steps) == OneFailed(s, id)
  {
    FailOneReaches(s, id);
    var s1 := Next(s, FailTake(id));
    var s2 := Next(s1, FailSend);
    RunOne(s2, FailClose, []);
    RunOne(s1, FailSend, [FailClose]);
    RunOne(s, FailTake(id), [FailSend, FailClose]);
  }

  function OneFailed(s: State, id: nat): State {
    s.(pending := s.pending - {id}, exit := Failing(Idle),
       channels := s.channels[id := Channel([ExitNotice], true, 1, 1)])
  }

  lemma FailOneReaches(s: State, id: nat)
    requires Inv(s) && s.exit == Failing(Idle) && id in s.pending
    ensures var s1 := Next(s, FailTake(id));
            Enabled(s1, FailSend) && Enabled(Next(s1, FailSend), FailClose) &&
            Next(Next(s1, FailSend), FailClose) == OneFailed(s, id)
  {
    assert ChannelOk(s, id);
    assert [] + [ExitNotice] == [ExitNotice];
  }

  lemma RunOne(s: State, step: Step, rest: seq<Step>)
    requires Enabled(s, step) && IsRun(Next(s, step), rest)
    ensures IsRun(s, [step] + rest) && Run(s, [step] + rest) == Run(Next(s, step), rest)
  {
    assert ([step] + rest)[1..] == rest;
  }

  lemma {:induction false} RunConcat(s: State, a: seq<Step>, b: seq<Step>)
    requires IsRun(s, a) && IsRun(Run(s, a), b)
    ensures IsRun(s, a + b) && Run(s, a + b) == Run(Run(s, a), b)
    decreases |a|
  {
    if a == [] {
      assert a + b == b;
    } else {
      assert (a + b)[1..] == a[1..] + b;
      RunConcat(Next(s, a[0]), a[1..], b);
    }
  }

  /** What `FailPending` makes of the channels, given which calls are pending. */
  predicate AllFailed(pending: set<nat>, channels: map<nat, Channel>, channels': map<nat, Channel>) {
    channels'.Keys == channels.Keys &&
    forall id | id in channels' :: channels'[id] == if id in pending then Channel([ExitNotice], true, 1, 1) else channels[id]
  }

  lemma OneMoreFailed(pending: set<nat>, id: nat, channels: map<nat, Channel>, channels': map<nat, Channel>)
    requires id in pending && id in channels
    requires AllFailed(pending - {id}, channels[id := Channel([ExitNotice], true, 1, 1)], channels')
    ensures AllFailed(pending, channels, channels')
  {
  }

  /** Some undisturbed run of the exit handler does what `FailPending` does. */
  lemma {:induction false} FailPendingIsSteps(s: State) returns (steps: seq<Step>)
    requires Inv(s) && s.exit == Failing(Idle)
    ensures IsRun(s, steps)
    ensures var s' := Run(s, steps);
            s'.exit == Failing(Idle) && s'.pending == {} && AllFailed(s.pending, s.channels, s'.channels)
    decreases |s.pending|
  {
    steps := [];
    if s.pending != {} {
      var id :| id in s.pending;
      var first := [FailTake(id), FailSend, FailClose];
      FailOneIsSteps(s, id);
      RunKeepsInv(s, first);
      var rest := FailPendingIsSteps(OneFailed(s, id));
      RunConcat(s, first, rest);
      OneMoreFailed(s.pending, id, s.channels, Run(s, first + rest).channels);
      steps := first + rest;
    }
  }
}
