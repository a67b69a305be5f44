/**
 Delivery of asynchronous sub-turn results (`subturn.go`) against `Finish` of the parent
 (`turn.go`): every lock, channel and event operation is a step of its own.
 */
module Delivery {

  /** One `deliverSubTurnResult` call, for a result that is nil or not. */
  datatype Phase =
    | Started     // has not looked at the parent yet
    | Sending     // saw a running parent, is in the select
    | Accepted    // the send went through, the event is still to be emitted
    | Orphaned    // the send was not possible, the event is still to be emitted
    | Finished

  datatype Delivery = Delivery(phase: Phase, isNil: bool)

  /** The progress of `Finish`: flag set, results channel closed, finished channel closed. */
  datatype Finishing = Running | Flagged | Shut | Ended

  datatype Event = Delivered(child: nat) | Orphan(child: nat)

  datatype State = State(
    capacity: nat, hasChannel: bool, finishing: Finishing,
    buffer: seq<nat>, received: seq<nat>,
    deliveries: map<nat, Delivery>, events: seq<Event>)

  datatype Step =
    | Start(child: nat, isNil: bool) | Look(child: nat) | SendResult(child: nat) | SendPanics(child: nat)
    | SeeFinished(child: nat) | EmitDelivered(child: nat) | EmitOrphan(child: nat)
    | Poll | SetFlag | CloseResults | CloseFinished

  function Initial(capacity: nat, hasChannel: bool): State {
    State(capacity, hasChannel, Running, [], [], map[], [])
  }

  predicate In(s: State, child: nat, phase: Phase) {
    child in s.deliveries && s.deliveries[child].phase == phase
  }

  predicate Enabled(s: State, step: Step) {
    match step
    case Start(child, _) => child !in s.deliveries
    case Look(child) => In(s, child, Started)
    case SendResult(child) => In(s, child, Sending) && !ResultsClosed(s) && |s.buffer| < s.capacity
    case SendPanics(child) => In(s, child, Sending) && ResultsClosed(s)
    case SeeFinished(child) => In(s, child, Sending) && s.finishing.Ended?
    case EmitDelivered(child) => In(s, child, Accepted)
    case EmitOrphan(child) => In(s, child, Orphaned)
    case Poll => s.buffer != []
    case SetFlag => s.finishing.Running?
    case CloseResults => s.finishing.Flagged?
    case CloseFinished => s.finishing.Shut?
  }

  predicate ResultsClosed(s: State) {
    s.finishing.Shut? || s.finishing.Ended?
  }

  function To(s: State, child: nat, phase: Phase): State
    requires child in s.deliveries
  {
    s.(deliveries := s.deliveries[child := s.deliveries[child].(phase := phase)])
  }

  /** A nil result is delivered silently: reading its length panics before the event is emitted. */
  function Emit(s: State, child: nat, event: Event): State
    requires child in s.deliveries
  {
    var s' := To(s, child, Finished);
    if s.deliveries[child].isNil then s' else s'.(events := s.events + [event])
  }

  function Next(s: State, step: Step): State
    requires Enabled(s, step)
  {
    match step
    case Start(child, isNil) => s.(deliveries := s.deliveries[child := Delivery(Started, isNil)])
    case Look(child) => To(s, child, if !s.finishing.Running? || !s.hasChannel then Orphaned else Sending)
    case SendResult(child) => To(s, child, Accepted).(buffer := s.buffer + [child])
    case SendPanics(child) => To(s, child, Orphaned)
    case SeeFinished(child) => To(s, child, Orphaned)
    case EmitDelivered(child) => Emit(s, child, Delivered(child))
    case EmitOrphan(child) => Emit(s, child, Orphan(child))
    case Poll => s.(buffer := s.buffer[1..], received := s.received + [s.buffer[0]])
    case SetFlag => s.(finishing := Flagged)
    case CloseResults => s.(finishing := Shut)
    case CloseFinished => s.(finishing := Ended)
  }

  predicate IsRun(s: State, steps: seq<Step>)
    decreases |steps|
  {
    steps == [] || (Enabled(s, steps[0]) && IsRun(Next(s, steps[0]), steps[1..]))
  }

  function Run(s: State, steps: seq<Step>): State
    requires IsRun(s, steps)
    decreases |steps|
  {
    if steps == [] then s else Run(Next(s, steps[0]), steps[1..])
  }

  // ----- The invariant -----

  /** The events of one child: a delivery is worth one, an orphan is worth one. */
  function EventsOf(events: seq<Event>, child: nat): seq<Event> {
    if events == [] then []
    else
      var n := |events| - 1;
      EventsOf(events[..n], child) + if events[n].child == child then [events[n]] else []
  }

  /** What passed through the channel, in order. */
  function Passed(s: State): seq<nat> {
    s.received + s.buffer
  }

  predicate DeliveryOk(s: State, child: nat)
    requires child in s.deliveries
  {
    var d, events := s.deliveries[child], EventsOf(s.events, child);
    var passed := child in Passed(s);
    match d.phase
    case Finished =>
      if d.isNil then events == []
      else events == [if passed then Delivered(child) else Orphan(child)]
    case Accepted => events == [] && passed
    case _ => events == [] && !passed
  }

  ghost predicate Inv(s: State) {
    && |s.buffer| <= s.capacity
    && (forall child | child in s.deliveries :: DeliveryOk(s, child))
    && (forall k | 0 <= k < |Passed(s)| :: Passed(s)[k] in s.deliveries)
    && (forall k | 0 <= k < |s.events| :: s.events[k].child in s.deliveries)
    && (forall k, l | 0 <= k < l < |Passed(s)| :: Passed(s)[k] != Passed(s)[l])
  }

  lemma {:induction false} NoEvents(events: seq<Event>, child: nat)
    requires forall k | 0 <= k < |events| :: events[k].child != child
    ensures EventsOf(events, child) == []
  {
    if events != [] {
      NoEvents(events[..|events| - 1], child);
    }
  }

  lemma EventsAppend(events: seq<Event>, event: Event, child: nat)
    ensures EventsOf(events + [event], child) == EventsOf(events, child) + if event.child == child then [event] else []
  {
    assert (events + [event])[..|events|] == events;
  }

  /** Changing one child's phase only, to a fitting one, keeps the invariant. */
  lemma MoveKeepsInv(s: State, child: nat, phase: Phase)
    requires Inv(s) && child in s.deliveries && !s.deliveries[child].phase.Accepted? && !s.deliveries[child].phase.Finished?
    requires !phase.Accepted? && !phase.Finished?
    ensures Inv(To(s, child, phase))
  {
    var s' := To(s, child, phase);
    assert Passed(s') == Passed(s);
    forall c | c in s'.deliveries
      ensures DeliveryOk(s', c)
    {
      assert DeliveryOk(s, c);
    }
  }

  lemma EmittedIsOk(s: State, child: nat, event: Event)
    requires child in s.deliveries && DeliveryOk(s, child)
    requires (In(s, child, Accepted) && event == Delivered(child)) || (In(s, child, Orphaned) && event == Orphan(child))
    ensures DeliveryOk(Emit(s, child, event), child)
  {
    EventsAppend(s.events, event, child);
    assert [] + [event] == [event];
    assert Passed(Emit(s, child, event)) == Passed(s);
  }

  lemma OthersStayOk(s: State, child: nat, event: Event, other: nat)
    requires child in s.deliveries && other in s.deliveries && other != child && DeliveryOk(s, other)
    requires event.child == child
    ensures DeliveryOk(Emit(s, child, event), other)
  {
    var s' := Emit(s, child, event);
    EventsAppend(s.events, event, other);
    assert EventsOf(s.events, other) + [] == EventsOf(s.events, other);
    SameDelivery(s, s', other);
  }

  lemma SameDelivery(s: State, s': State, child: nat)
    requires child in s.deliveries && child in s'.deliveries && s'.deliveries[child] == s.deliveries[child]
    requires Passed(s') == Passed(s) && EventsOf(s'.events, child) == EventsOf(s.events, child)
    ensures DeliveryOk(s', child) <==> DeliveryOk(s, child)
  {
  }

  lemma EmitKeepsInv(s: State, child: nat, event: Event)
    requires Inv(s) && child in s.deliveries
    requires (In(s, child, Accepted) && event == Delivered(child)) || (In(s, child, Orphaned) && event == Orphan(child))
    ensures Inv(Emit(s, child, event))
  {
    var s' := Emit(s, child, event);
    assert Passed(s') == Passed(s);
    forall c | c in s'.deliveries
      ensures DeliveryOk(s', c)
    {
      assert DeliveryOk(s, c);
      if c == child {
        EmittedIsOk(s, child, event);
      } else {
        OthersStayOk(s, child, event, c);
      }
    }
  }

  lemma SendKeepsInv(s: State, child: nat)
    requires Inv(s) && Enabled(s, SendResult(child))
    ensures Inv(Next(s, SendResult(child)))
  {
    var s' := Next(s, SendResult(child));
    assert Passed(s') == Passed(s) + [child];
    assert DeliveryOk(s, child);
    forall c | c in s'.deliveries
      ensures DeliveryOk(s', c)
    {
      assert DeliveryOk(s, c);
      assert c in Passed(s') <==> c in Passed(s) || c == child;
    }
  }

  lemma StartKeepsInv(s: State, child: nat, isNil: bool)
    requires Inv(s) && Enabled(s, Start(child, isNil))
    ensures Inv(Next(s, Start(child, isNil)))
  {
    var s' := Next(s, Start(child, isNil));
    assert Passed(s') == Passed(s);
    NoEvents(s.events, child);
    forall c | c in s'.deliveries
      ensures DeliveryOk(s', c)
    {
      if c != child {
        assert DeliveryOk(s, c);
      }
    }
  }

  lemma QuietKeepsInv(s: State, s': State)
    requires Inv(s) && Passed(s') == Passed(s) && s'.events == s.events && s'.deliveries == s.deliveries
    requires |s'.buffer| <= s'.capacity
    ensures Inv(s')
  {
    forall c | c in s'.deliveries
      ensures DeliveryOk(s', c)
    {
      assert DeliveryOk(s, c);
    }
  }

  lemma StepKeepsInv(s: State, step: Step)
    requires Inv(s) && Enabled(s, step)
    ensures Inv(Next(s, step))
  {
    match step {
      case Start(child, isNil) => StartKeepsInv(s, child, isNil);
      case Look(child) => MoveKeepsInv(s, child, if !s.finishing.Running? || !s.hasChannel then Orphaned else Sending);
      case SendResult(child) => SendKeepsInv(s, child);
      case SendPanics(child) => MoveKeepsInv(s, child, Orphaned);
      case SeeFinished(child) => MoveKeepsInv(s, child, Orphaned);
      case EmitDelivered(child) => EmitKeepsInv(s, child, Delivered(child));
      case EmitOrphan(child) => EmitKeepsInv(s, child, Orphan(child));
      case _ => QuietKeepsInv(s, Next(s, step));
    }
  }

  lemma {:induction false} RunKeepsInv(s: State, steps: seq<Step>)
    requires Inv(s) && IsRun(s, steps)
    ensures Inv(Run(s, steps))
    decreases |steps|
  {
    if steps != [] {
      StepKeepsInv(s, steps[0]);
      RunKeepsInv(Next(s, steps[0]), steps[1..]);
    }
  }

  // ----- Exactly one event for every result -----

  /**
   Under every interleaving of deliveries, polls and `Finish`: a completed delivery of a result has
   exactly one event, "delivered" when the result went through the channel and "orphan" otherwise.
   */
  lemma OneEventPerResult(capacity: nat, hasChannel: bool, steps: seq<Step>, child: nat)
    requires IsRun(Initial(capacity, hasChannel), steps)
    ensures var s := Run(Initial(capacity, hasChannel), steps);
            In(s, child, Finished) && !s.deliveries[child].isNil ==>
              EventsOf(s.events, child) == [if child in s.received + s.buffer then Delivered(child) else Orphan(child)]
  {
    RunKeepsInv(Initial(capacity, hasChannel), steps);
    var s := Run(Initial(capacity, hasChannel), steps);
    if In(s, child, Finished) {
      assert DeliveryOk(s, child);
    }
  }

  predicate Settled(s: State) {
    forall child | child in s.deliveries :: s.deliveries[child].phase == Finished && !s.deliveries[child].isNil
  }

  function DeliveredChildren(events: seq<Event>): (children: set<nat>) {
    set k | 0 <= k < |events| && events[k].Delivered? :: events[k].child
  }

  lemma {:induction false} EventsOfIsSound(events: seq<Event>, child: nat, e: Event)
    ensures e in EventsOf(events, child) <==> e in events && e.child == child
  {
    if events != [] {
      var n := |events| - 1;
      EventsOfIsSound(events[..n], child, e);
      assert events == events[..n] + [events[n]];
    }
  }

  /** Once all deliveries are settled, the delivered results are those received or still buffered. */
  lemma DeliveredIsReceivedOrBuffered(capacity: nat, hasChannel: bool, steps: seq<Step>)
    requires IsRun(Initial(capacity, hasChannel), steps)
    ensures var s := Run(Initial(capacity, hasChannel), steps);
            Settled(s) ==>
              && (forall child :: child in DeliveredChildren(s.events) <==> child in s.received + s.buffer)
              && (forall k, l | 0 <= k < l < |s.received + s.buffer| ::
                    (s.received + s.buffer)[k] != (s.received + s.buffer)[l])
  {
    RunKeepsInv(Initial(capacity, hasChannel), steps);
    var s := Run(Initial(capacity, hasChannel), steps);
    if Settled(s) {
      forall child
        ensures child in DeliveredChildren(s.events) <==> child in Passed(s)
      {
        DeliveredIffPassed(s, child);
      }
    }
  }

  lemma DeliveredIffPassed(s: State, child: nat)
    requires Inv(s) && Settled(s)
    ensures child in DeliveredChildren(s.events) <==> child in Passed(s)
  {
    EventsOfIsSound(s.events, child, Delivered(child));
    if child in s.deliveries {
      assert DeliveryOk(s, child);
      assert child in DeliveredChildren(s.events) <==> Delivered(child) in s.events;
    }
  }

  // ----- Every delivery ends -----

  /** How many steps of its own a delivery has before it, at most. */
  function Rank(phase: Phase): nat {
    match phase
    case Started => 3
    case Sending => 2
    case Accepted => 1
    case Orphaned => 1
    case Finished => 0
  }

  function RankOf(s: State, child: nat): nat {
    if child in s.deliveries then Rank(s.deliveries[child].phase) else 0
  }

  /** A step of this very delivery, as opposed to those of the parent and of other deliveries. */
  predicate IsOwn(step: Step, child: nat) {
    match step
    case Look(c) => c == child
    case SendResult(c) => c == child
    case SendPanics(c) => c == child
    case SeeFinished(c) => c == child
    case EmitDelivered(c) => c == child
    case EmitOrphan(c) => c == child
    case _ => false
  }

  function OwnSteps(steps: seq<Step>, child: nat): nat {
    if steps == [] then 0 else (if IsOwn(steps[0], child) then 1 else 0) + OwnSteps(steps[1..], child)
  }

  /** Own steps use up the rank, and nothing else touches it. */
  lemma {:induction false} OwnStepsAreBounded(s: State, steps: seq<Step>, child: nat)
    requires IsRun(s, steps) && child in s.deliveries
    ensures child in Run(s, steps).deliveries
    ensures OwnSteps(steps, child) + RankOf(Run(s, steps), child) <= RankOf(s, child)
    ensures s.finishing.Ended? ==> Run(s, steps).finishing.Ended?
    decreases |steps|
  {
    if steps != [] {
      OwnStepsAreBounded(Next(s, steps[0]), steps[1..], child);
    }
  }

  function OwnStep(child: nat, phase: Phase): Step {
    match phase
    case Started => Look(child)
    case Sending => SeeFinished(child)
    case Accepted => EmitDelivered(child)
    case _ => EmitOrphan(child)
  }

  /**
   Nobody waits for ever. In every run, once the parent has finished: a delivery has at most three
   steps of its own left, two if it has looked at the parent; as long as it is not through, one of
   them can be taken at once, whatever the others do; so after that many it is through.
   */
  lemma DeliveriesEndAfterFinish(capacity: nat, hasChannel: bool, before: seq<Step>, after: seq<Step>, child: nat)
    requires IsRun(Initial(capacity, hasChannel), before)
    requires var s := Run(Initial(capacity, hasChannel), before);
             s.finishing.Ended? && child in s.deliveries && IsRun(s, after)
    ensures var s := Run(Initial(capacity, hasChannel), before);
            var s' := Run(s, after);
            var own := OwnSteps(after, child);
            && own <= RankOf(s, child) <= (if In(s, child, Started) then 3 else 2)
            && (own == RankOf(s, child) ==> In(s', child, Finished))
            && (In(s', child, Finished) ||
                exists step :: IsOwn(step, child) && Enabled(s', step) && RankOf(Next(s', step), child) < RankOf(s', child))
  {
    var s := Run(Initial(capacity, hasChannel), before);
    var s' := Run(s, after);
    OwnStepsAreBounded(s, after, child);
    if !In(s', child, Finished) {
      var step := OwnStep(child, s'.deliveries[child].phase);
      assert IsOwn(step, child) && Enabled(s', step) && RankOf(Next(s', step), child) < RankOf(s', child);
    }
  }

  // ----- Who is delivered -----

  /** While the parent runs nobody is orphaned, and without a channel nothing passes. */
  predicate FateOk(s: State) {
    && (s.hasChannel && s.finishing.Running? ==>
          && (forall child | child in s.deliveries :: !s.deliveries[child].phase.Orphaned?)
          && forall k | 0 <= k < |s.events| :: s.events[k].Delivered?)
    && (!s.hasChannel ==>
          && s.received == [] && s.buffer == []
          && forall child | child in s.deliveries :: !s.deliveries[child].phase.Sending?)
  }

  lemma StepKeepsFate(s: State, step: Step)
    requires FateOk(s) && Enabled(s, step)
    ensures FateOk(Next(s, step)) && Next(s, step).hasChannel == s.hasChannel && Next(s, step).capacity == s.capacity
    ensures Next(s, step).finishing.Running? ==> s.finishing.Running?
    ensures Passed(s) <= Passed(Next(s, step))
  {
  }

  lemma {:induction false} RunKeepsFate(s: State, steps: seq<Step>)
    requires FateOk(s) && IsRun(s, steps)
    ensures FateOk(Run(s, steps)) && Run(s, steps).hasChannel == s.hasChannel && Passed(s) <= Passed(Run(s, steps))
    decreases |steps|
  {
    if steps != [] {
      StepKeepsFate(s, steps[0]);
      RunKeepsFate(Next(s, steps[0]), steps[1..]);
    }
  }

  /**
   In every run up to a moment at which the parent still runs, no result is orphaned: each completed
   delivery of a result has gone through the channel and has its "delivered" event. A parent without a
   channel gets nothing: each has its "orphan" event.
   */
  lemma RunningParentGetsEveryResult(capacity: nat, hasChannel: bool, steps: seq<Step>, child: nat)
    requires IsRun(Initial(capacity, hasChannel), steps)
    ensures var s := Run(Initial(capacity, hasChannel), steps);
            && (hasChannel && s.finishing.Running? ==> !In(s, child, Orphaned) && Orphan(child) !in s.events)
            && (In(s, child, Finished) && !s.deliveries[child].isNil ==>
                  && (hasChannel && s.finishing.Running? ==>
                        child in s.received + s.buffer && EventsOf(s.events, child) == [Delivered(child)])
                  && (!hasChannel ==> EventsOf(s.events, child) == [Orphan(child)]))
  {
    RunKeepsFate(Initial(capacity, hasChannel), steps);
    OneEventPerResult(capacity, hasChannel, steps, child);
    EventsOfIsSound(Run(Initial(capacity, hasChannel), steps).events, child, Orphan(child));
  }

  /** What has passed through the channel stays, in order: the parent receives it first in, first out. */
  lemma ResultsPassInOrder(capacity: nat, hasChannel: bool, before: seq<Step>, after: seq<Step>)
    requires IsRun(Initial(capacity, hasChannel), before) && IsRun(Run(Initial(capacity, hasChannel), before), after)
    ensures var s := Run(Initial(capacity, hasChannel), before);
            var t := Run(s, after);
            s.received + s.buffer <= t.received + t.buffer
  {
    RunKeepsFate(Initial(capacity, hasChannel), before);
    RunKeepsFate(Run(Initial(capacity, hasChannel), before), after);
  }

  /** The steps by which a delivery gets through while a slot is free. */
  function DeliverySteps(child: nat, phase: Phase): seq<Step> {
    (if phase.Started? then [Look(child)] else []) + [SendResult(child), EmitDelivered(child)]
  }

  /**
   As long as the parent runs and a slot is free, a delivery that is not in the channel yet can get
   there by its own steps alone, and then has its event.
   */
  lemma FreeSlotTakesResult(s: State, child: nat)
    requires s.hasChannel && s.finishing.Running? && |s.buffer| < s.capacity
    requires In(s, child, Started) || In(s, child, Sending)
    ensures var steps := DeliverySteps(child, s.deliveries[child].phase);
            && IsRun(s, steps)
            && var t := Run(s, steps);
               && In(t, child, Finished) && t.buffer == s.buffer + [child] && t.received == s.received
               && t.events == s.events + if s.deliveries[child].isNil then [] else [Delivered(child)]
  {
    if In(s, child, Started) {
      var s' := Next(s, Look(child));
      SendingGetsThrough(s', child);
      assert DeliverySteps(child, Started)[1..] == DeliverySteps(child, Sending);
    } else {
      SendingGetsThrough(s, child);
    }
  }

  lemma SendingGetsThrough(s: State, child: nat)
    requires s.finishing.Running? && |s.buffer| < s.capacity && In(s, child, Sending)
    ensures var steps := DeliverySteps(child, Sending);
            && IsRun(s, steps)
            && var t := Run(s, steps);
               && In(t, child, Finished) && t.buffer == s.buffer + [child] && t.received == s.received
               && t.events == s.events + if s.deliveries[child].isNil then [] else [Delivered(child)]
  {
    var s1 := Next(s, SendResult(child));
    var s2 := Next(s1, EmitDelivered(child));
    assert [EmitDelivered(child)][1..] == [];
    assert Run(s2, []) == s2 && IsRun(s2, []);
    assert IsRun(s1, [EmitDelivered(child)]) && Run(s1, [EmitDelivered(child)]) == s2;
    assert DeliverySteps(child, Sending)[1..] == [EmitDelivered(child)];
  }
}
