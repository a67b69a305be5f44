/** Which messages get a Codex turn: exactly one for each that asks for one. */
module PipeTurns {
  import opened CodexPipe

  /** Neither blank nor only observed. */
  predicate AsksForTurn(m: Message) {
    !m.observeOnly && !m.blank
  }

  /** The handler has come as far as a turn, or past it. */
  predicate PastBegin(handler: Handler) {
    handler.InTurn? || handler.TurnDone? || handler.Unlocking? || handler.Left?
  }

  predicate HasTurn(turns: seq<Turn>, h: nat) {
    exists k :: 0 <= k < |turns| && turns[k].handler == h
  }

  /** No two turns have the same handler. */
  predicate OneTurnEach(turns: seq<Turn>) {
    forall k, l | 0 <= k < l < |turns| :: turns[k].handler != turns[l].handler
  }

  /** The turn belongs to a handler that has come that far, and to the session of its message. */
  predicate TurnOk(s: State, t: Turn) {
    && t.handler in s.handlers && t.handler in s.messages
    && s.messages[t.handler].key == t.key && AsksForTurn(s.messages[t.handler]) && PastBegin(s.handlers[t.handler])
  }

  /** A handler has had its turn when it has come that far; while it is in it, it is the last of its key. */
  predicate HandlerTurnOk(s: State, h: nat)
    requires h in s.handlers
  {
    && h in s.messages
    && (s.messages[h].observeOnly ==> s.handlers[h].Arrived? || s.handlers[h].Left?)
    && (s.messages[h].blank ==> !s.handlers[h].InTurn? && !s.handlers[h].TurnDone?)
    && (AsksForTurn(s.messages[h]) && PastBegin(s.handlers[h]) ==> HasTurn(s.turns, h))
    && (s.handlers[h].InTurn? ==> IsLastTurn(s.turns, s.messages[h].key, h))
  }

  predicate IsLastTurn(turns: seq<Turn>, key: Key, h: nat) {
    LastTurn(turns, key) < |turns| && turns[LastTurn(turns, key)].handler == h
  }

  /** What a turn says is what its handler says, as long as it does. */
  predicate SaysTheSame(handler: Handler, t: Turn) {
    match handler
    case InTurn(thread) => t.thread == thread && t.result == ""
    case TurnDone(thread, result) => t.thread == thread && t.result == result
    case _ => true
  }

  predicate TurnSays(s: State, t: Turn) {
    t.handler in s.handlers ==> SaysTheSame(s.handlers[t.handler], t)
  }

  predicate AllTurnsOk(s: State) {
    OneTurnEach(s.turns) && forall k | 0 <= k < |s.turns| :: TurnOk(s, s.turns[k]) && TurnSays(s, s.turns[k])
  }

  predicate AllHandlersOk(s: State) {
    forall h | h in s.handlers :: HandlerTurnOk(s, h)
  }

  ghost predicate TurnsOk(initial: map<Key, string>, s: State) {
    Inv(initial, s) && AllTurnsOk(s) && AllHandlersOk(s)
  }

  // ----- Steps that leave the turns alone -----

  predicate LeavesTurns(step: Step) {
    !step.Begin? && !step.Return?
  }

  lemma QuietStepKeepsTurn(initial: map<Key, string>, s: State, step: Step, t: Turn)
    requires Inv(initial, s) && Enabled(s, step) && LeavesTurns(step) && TurnOk(s, t) && TurnSays(s, t)
    ensures TurnOk(Next(s, step), t) && TurnSays(Next(s, step), t)
  {
  }

  lemma QuietStepKeepsHandler(s: State, step: Step, h: nat)
    requires Enabled(s, step) && LeavesTurns(step) && h in Next(s, step).handlers
    requires h in s.handlers ==> HandlerTurnOk(s, h)
    ensures HandlerTurnOk(Next(s, step), h)
  {
    if h in s.handlers {
      assert HasTurn(s.turns, h) ==> HasTurn(Next(s, step).turns, h);
    }
  }

  lemma QuietStepKeepsTurns(initial: map<Key, string>, s: State, step: Step)
    requires TurnsOk(initial, s) && Enabled(s, step) && LeavesTurns(step)
    ensures TurnsOk(initial, Next(s, step))
  {
    var s' := Next(s, step);
    StepKeepsInv(initial, s, step);
    assert s'.turns == s.turns;
    forall k | 0 <= k < |s'.turns|
      ensures TurnOk(s', s'.turns[k]) && TurnSays(s', s'.turns[k])
    {
      QuietStepKeepsTurn(initial, s, step, s.turns[k]);
    }
    forall h | h in s'.handlers
      ensures HandlerTurnOk(s', h)
    {
      QuietStepKeepsHandler(s, step, h);
    }
  }

  // ----- A turn begins -----

  lemma HasTurnAppend(turns: seq<Turn>, t: Turn, h: nat)
    ensures HasTurn(turns + [t], h) <==> HasTurn(turns, h) || t.handler == h
  {
    var longer := turns + [t];
    assert longer[|turns|] == t;
    if HasTurn(turns, h) {
      var k :| 0 <= k < |turns| && turns[k].handler == h;
      assert longer[k].handler == h;
    }
  }

  /** The turn that a handler begins, if its message is not blank. */
  function Begun(s: State, h: nat): seq<Turn>
    requires h in s.messages
  {
    var m := s.messages[h];
    if m.blank then [] else [Turn(m.key, Lookup(s.threads, m.key), "", h)]
  }

  lemma BeginIs(s: State, h: nat) returns (s': State)
    requires Enabled(s, Begin(h))
    ensures s' == Next(s, Begin(h)) && s'.turns == s.turns + Begun(s, h) && s'.messages == s.messages
    ensures s'.handlers ==
              s.handlers[h := if s.messages[h].blank then Unlocking else InTurn(Lookup(s.threads, s.messages[h].key))]
  {
    s' := Next(s, Begin(h));
  }

  lemma NoTurnYet(initial: map<Key, string>, s: State, h: nat)
    requires TurnsOk(initial, s) && Enabled(s, Begin(h))
    ensures forall k | 0 <= k < |s.turns| :: s.turns[k].handler != h
  {
    forall k | 0 <= k < |s.turns|
      ensures s.turns[k].handler != h
    {
      assert TurnOk(s, s.turns[k]);
    }
  }

  lemma BeginKeepsHandler(initial: map<Key, string>, s: State, h: nat, g: nat)
    requires TurnsOk(initial, s) && Enabled(s, Begin(h)) && g in s.handlers
    ensures HandlerTurnOk(Next(s, Begin(h)), g)
  {
    var s' := BeginIs(s, h);
    assert HandlerTurnOk(s, g) && HandlerTurnOk(s, h);
    if s.messages[h].blank {
      assert s'.turns == s.turns;
    } else {
      var t := Begun(s, h)[0];
      HasTurnAppend(s.turns, t, g);
      if g == h {
        LastTurnAppendOwn(s.turns, t);
      } else if s.handlers[g].InTurn? {
        assert HandlerOk(s, g) && HandlerOk(s, h);
        LastTurnAppendOther(s.turns, t, s.messages[g].key);
      }
    }
  }

  lemma BeginKeepsTurns(initial: map<Key, string>, s: State, h: nat)
    requires TurnsOk(initial, s) && Enabled(s, Begin(h))
    ensures TurnsOk(initial, Next(s, Begin(h)))
  {
    StepKeepsInv(initial, s, Begin(h));
    BeginKeepsAllTurns(initial, s, h);
    BeginKeepsHandlers(initial, s, h);
  }

  lemma BeginKeepsHandlers(initial: map<Key, string>, s: State, h: nat)
    requires TurnsOk(initial, s) && Enabled(s, Begin(h))
    ensures AllHandlersOk(Next(s, Begin(h)))
  {
    var s' := BeginIs(s, h);
    forall g | g in s'.handlers
      ensures HandlerTurnOk(s', g)
    {
      BeginKeepsHandler(initial, s, h, g);
    }
  }

  lemma BeginKeepsAllTurns(initial: map<Key, string>, s: State, h: nat)
    requires TurnsOk(initial, s) && Enabled(s, Begin(h))
    ensures AllTurnsOk(Next(s, Begin(h)))
  {
    BeginKeepsOneEach(initial, s, h);
    var s' := Next(s, Begin(h));
    forall k | 0 <= k < |s'.turns|
      ensures TurnOk(s', s'.turns[k]) && TurnSays(s', s'.turns[k])
    {
      BeginKeepsTurn(initial, s, h, k);
    }
  }

  lemma BeginKeepsOneEach(initial: map<Key, string>, s: State, h: nat)
    requires TurnsOk(initial, s) && Enabled(s, Begin(h))
    ensures OneTurnEach(Next(s, Begin(h)).turns)
  {
    NoTurnYet(initial, s, h);
    var s' := BeginIs(s, h);
    if Begun(s, h) == [] {
      assert s'.turns == s.turns;
    } else {
      OneEachAppend(s.turns, Begun(s, h)[0]);
    }
  }

  lemma OneEachAppend(turns: seq<Turn>, t: Turn)
    requires OneTurnEach(turns) && forall k | 0 <= k < |turns| :: turns[k].handler != t.handler
    ensures OneTurnEach(turns + [t])
  {
  }

  lemma OneEachSet(turns: seq<Turn>, p: nat, result: string)
    requires OneTurnEach(turns) && p < |turns|
    ensures OneTurnEach(turns[p := turns[p].(result := result)])
  {
  }

  lemma BeginKeepsTurn(initial: map<Key, string>, s: State, h: nat, k: nat)
    requires TurnsOk(initial, s) && Enabled(s, Begin(h)) && k < |Next(s, Begin(h)).turns|
    ensures var s' := Next(s, Begin(h)); TurnOk(s', s'.turns[k]) && TurnSays(s', s'.turns[k])
  {
    var s' := BeginIs(s, h);
    assert HandlerTurnOk(s, h);
    if k < |s.turns| {
      assert TurnOk(s, s.turns[k]) && TurnSays(s, s.turns[k]);
      NoTurnYet(initial, s, h);
    }
  }

  // ----- A turn returns -----

  lemma ReturnIs(s: State, h: nat, result: string) returns (s': State, p: nat)
    requires Enabled(s, Return(h, result)) && IsLastTurn(s.turns, s.messages[h].key, h)
    ensures s' == Next(s, Return(h, result)) && s'.messages == s.messages
    ensures p < |s.turns| && s.turns[p].handler == h && p == LastTurn(s.turns, s.messages[h].key)
    ensures s'.turns == s.turns[p := s.turns[p].(result := result)]
    ensures s'.turns == SetResult(s.turns, s.messages[h].key, result)
    ensures s'.handlers == s.handlers[h := TurnDone(s.handlers[h].thread, result)]
  {
    s' := Next(s, Return(h, result));
    p := LastTurn(s.turns, s.messages[h].key);
  }

  lemma ReturnKeepsHandler(initial: map<Key, string>, s: State, h: nat, result: string, g: nat)
    requires TurnsOk(initial, s) && Enabled(s, Return(h, result)) && g in s.handlers
    ensures HandlerTurnOk(Next(s, Return(h, result)), g)
  {
    assert HandlerTurnOk(s, h) && HandlerTurnOk(s, g);
    var s', p := ReturnIs(s, h, result);
    HasTurnSet(s.turns, p, result, g);
    if g != h && s.handlers[g].InTurn? {
      assert HandlerOk(s, g) && HandlerOk(s, h);
      LastTurnAfterSet(s.turns, s.messages[h].key, result, s.messages[g].key);
    }
  }

  lemma HasTurnSet(turns: seq<Turn>, p: nat, result: string, h: nat)
    requires p < |turns|
    ensures HasTurn(turns, h) ==> HasTurn(turns[p := turns[p].(result := result)], h)
  {
    if HasTurn(turns, h) {
      var k :| 0 <= k < |turns| && turns[k].handler == h;
      assert turns[p := turns[p].(result := result)][k].handler == h;
    }
  }

  lemma ReturnKeepsTurn(initial: map<Key, string>, s: State, h: nat, result: string, k: nat)
    requires TurnsOk(initial, s) && Enabled(s, Return(h, result)) && k < |s.turns|
    ensures var s' := Next(s, Return(h, result));
            |s'.turns| == |s.turns| && TurnOk(s', s'.turns[k]) && TurnSays(s', s'.turns[k])
  {
    assert HandlerTurnOk(s, h);
    var s', p := ReturnIs(s, h, result);
    assert TurnOk(s, s.turns[k]) && TurnSays(s, s.turns[k]);
    assert k != p ==> s.turns[k].handler != h;
  }

  lemma ReturnKeepsTurns(initial: map<Key, string>, s: State, h: nat, result: string)
    requires TurnsOk(initial, s) && Enabled(s, Return(h, result))
    ensures TurnsOk(initial, Next(s, Return(h, result)))
  {
    StepKeepsInv(initial, s, Return(h, result));
    ReturnKeepsAllTurns(initial, s, h, result);
    ReturnKeepsHandlers(initial, s, h, result);
  }

  lemma ReturnKeepsAllTurns(initial: map<Key, string>, s: State, h: nat, result: string)
    requires TurnsOk(initial, s) && Enabled(s, Return(h, result))
    ensures AllTurnsOk(Next(s, Return(h, result)))
  {
    assert HandlerTurnOk(s, h);
    var s', p := ReturnIs(s, h, result);
    OneEachSet(s.turns, p, result);
    forall k | 0 <= k < |s'.turns|
      ensures TurnOk(s', s'.turns[k]) && TurnSays(s', s'.turns[k])
    {
      ReturnKeepsTurn(initial, s, h, result, k);
    }
  }

  lemma ReturnKeepsHandlers(initial: map<Key, string>, s: State, h: nat, result: string)
    requires TurnsOk(initial, s) && Enabled(s, Return(h, result))
    ensures AllHandlersOk(Next(s, Return(h, result)))
  {
    assert HandlerTurnOk(s, h);
    var s', p := ReturnIs(s, h, result);
    forall g | g in s'.handlers
      ensures HandlerTurnOk(s', g)
    {
      ReturnKeepsHandler(initial, s, h, result, g);
    }
  }

  lemma {:induction false} RunKeepsTurns(initial: map<Key, string>, s: State, steps: seq<Step>)
    requires TurnsOk(initial, s) && IsRun(s, steps)
    ensures TurnsOk(initial, Run(s, steps))
    decreases |steps|
  {
    if steps != [] {
      match steps[0] {
        case Begin(h) => BeginKeepsTurns(initial, s, h);
        case Return(h, result) => ReturnKeepsTurns(initial, s, h, result);
        case _ => QuietStepKeepsTurns(initial, s, steps[0]);
      }
      RunKeepsTurns(initial, Next(s, steps[0]), steps[1..]);
    }
  }

  // ----- Over every interleaving -----

  /** The handlers that have had a turn of this session. */
  function HadTurn(turns: seq<Turn>, key: Key): set<nat> {
    set k | 0 <= k < |turns| && turns[k].key == key :: turns[k].handler
  }

  /** The handlers of this session whose message asks for a turn and that have come that far. */
  function ShouldHave(s: State, key: Key): set<nat> {
    set h | h in s.handlers && h in s.messages && s.messages[h].key == key
            && AsksForTurn(s.messages[h]) && PastBegin(s.handlers[h])
  }

  /**
   In every run a message that is neither blank nor only observed gets exactly one turn, in its own
   session, and no other message gets one: the turns of a session are by different handlers, and those
   are exactly its handlers past `Begin` whose message asks for a turn.
   */
  lemma EachMessageGetsItsTurn(initial: map<Key, string>, steps: seq<Step>, key: Key)
    requires IsRun(Initial(initial), steps)
    ensures var s := Run(Initial(initial), steps);
            OneTurnEach(s.turns) && HadTurn(s.turns, key) == ShouldHave(s, key)
  {
    RunKeepsTurns(initial, Initial(initial), steps);
    var s := Run(Initial(initial), steps);
    forall h
      ensures h in HadTurn(s.turns, key) <==> h in ShouldHave(s, key)
    {
      if h in HadTurn(s.turns, key) {
        var k :| 0 <= k < |s.turns| && s.turns[k].key == key && s.turns[k].handler == h;
        assert TurnOk(s, s.turns[k]);
      }
      if h in ShouldHave(s, key) {
        assert HandlerTurnOk(s, h);
        var k :| 0 <= k < |s.turns| && s.turns[k].handler == h;
        assert TurnOk(s, s.turns[k]);
      }
    }
  }

  /** A handler that has left has had exactly one turn, unless its message was blank or only observed. */
  lemma LeftAfterItsTurn(initial: map<Key, string>, steps: seq<Step>, h: nat)
    requires IsRun(Initial(initial), steps)
    ensures var s := Run(Initial(initial), steps);
            h in s.handlers && s.handlers[h].Left? ==>
              h in s.messages && (HasTurn(s.turns, h) <==> AsksForTurn(s.messages[h]))
  {
    RunKeepsTurns(initial, Initial(initial), steps);
    var s := Run(Initial(initial), steps);
    if h in s.handlers {
      assert HandlerTurnOk(s, h);
      assert forall k | 0 <= k < |s.turns| :: TurnOk(s, s.turns[k]);
    }
  }

  /** A turn keeps the thread its handler was given and the result it returned. */
  lemma TurnIsItsHandlers(initial: map<Key, string>, steps: seq<Step>, k: nat)
    requires IsRun(Initial(initial), steps) && k < |Run(Initial(initial), steps).turns|
    ensures var s := Run(Initial(initial), steps);
            s.turns[k].handler in s.handlers && SaysTheSame(s.handlers[s.turns[k].handler], s.turns[k])
  {
    RunKeepsTurns(initial, Initial(initial), steps);
    var s := Run(Initial(initial), steps);
    assert TurnOk(s, s.turns[k]) && TurnSays(s, s.turns[k]);
  }

  // ----- A message is handled -----

  /** A whole message with its turn. */
  function HandleSteps(h: nat, message: Message, result: string): seq<Step> {
    EnterSteps(h, message) + (TurnSteps(h, result) + LeaveSteps(h))
  }

  function EnterSteps(h: nat, message: Message): seq<Step> {
    [Receive(h, message), FetchLock(h), Lock(h)]
  }

  function TurnSteps(h: nat, result: string): seq<Step> {
    [Begin(h), Return(h, result)]
  }

  function LeaveSteps(h: nat): seq<Step> {
    [Store(h), Unlock(h)]
  }

  /** The run `steps` from `s` is possible and ends in `t`. */
  predicate RunsTo(s: State, steps: seq<Step>, t: State) {
    IsRun(s, steps) && Run(s, steps) == t
  }

  /** One more message, turn and handler that has left; the session is on the thread of the result. */
  function Handled(s: State, h: nat, message: Message, result: string): State {
    var thread := Lookup(s.threads, message.key);
    s.(messages := s.messages[h := message], handlers := s.handlers[h := Left],
       turns := s.turns + [Turn(message.key, thread, result, h)],
       threads := if result == "" || result == thread then s.threads else s.threads[message.key := result])
  }

  lemma HandledIs(s: State, s3: State, s4: State, s5: State, h: nat, message: Message, result: string)
    requires message.key !in s.owner
    requires s3 == s.(messages := s.messages[h := message], handlers := s.handlers[h := Locked],
                      owner := s.owner[message.key := h])
    requires s4 == s3.(handlers := s3.handlers[h := TurnDone(Lookup(s.threads, message.key), result)],
                       turns := s3.turns + [Turn(message.key, Lookup(s.threads, message.key), result, h)])
    requires s5 == s4.(handlers := s4.handlers[h := Left], owner := s4.owner - {message.key},
                       threads := AfterTurn(s4.threads, message.key, Lookup(s.threads, message.key), result))
    ensures s5 == Handled(s, h, message, result)
  {
    assert s5.owner == s.owner;
  }

  /**
   Whatever happened before: a message that asks for a turn, while nobody is in a turn of its session,
   continues the stored thread, and afterwards the session is on the thread that the turn returned.
   */
  lemma MessageIsHandled(s: State, h: nat, message: Message, result: string)
    requires h !in s.handlers && h !in s.messages && message.key !in s.owner && AsksForTurn(message)
    ensures RunsTo(s, HandleSteps(h, message, result), Handled(s, h, message, result))
  {
    var thread := Lookup(s.threads, message.key);
    var s3 := Enters(s, h, message);
    var s4 := Turns(s3, h, thread, result);
    var s5 := Leaves(s4, h, thread, result);
    RunsThen(s3, TurnSteps(h, result), s4, LeaveSteps(h), s5);
    RunsThen(s, EnterSteps(h, message), s3, TurnSteps(h, result) + LeaveSteps(h), s5);
    HandledIs(s, s3, s4, s5, h, message, result);
  }

  lemma {:induction false} RunsThen(s: State, a: seq<Step>, t: State, b: seq<Step>, u: State)
    requires RunsTo(s, a, t) && RunsTo(t, b, u)
    ensures RunsTo(s, a + b, u)
    decreases |a|
  {
    if a == [] {
      assert a + b == b;
    } else {
      assert (a + b)[1..] == a[1..] + b;
      RunsThen(Next(s, a[0]), a[1..], t, b, u);
    }
  }

  lemma RunStep(s: State, step: Step, rest: seq<Step>, t: State)
    requires Enabled(s, step) && RunsTo(Next(s, step), rest, t)
    ensures RunsTo(s, [step] + rest, t)
  {
    assert ([step] + rest)[1..] == rest;
  }

  lemma Enters(s: State, h: nat, message: Message) returns (s3: State)
    requires h !in s.handlers && h !in s.messages && message.key !in s.owner && AsksForTurn(message)
    ensures s3 == s.(messages := s.messages[h := message], handlers := s.handlers[h := Locked],
                      owner := s.owner[message.key := h])
    ensures RunsTo(s, EnterSteps(h, message), s3)
  {
    var s1 := Next(s, Receive(h, message));
    var s2 := Next(s1, FetchLock(h));
    s3 := Next(s2, Lock(h));
    RunStep(s2, Lock(h), [], s3);
    RunStep(s1, FetchLock(h), [Lock(h)], s3);
    RunStep(s, Receive(h, message), [FetchLock(h), Lock(h)], s3);
  }

  lemma Turns(s: State, h: nat, thread: string, result: string) returns (s2: State)
    requires Is(s, h, Locked) && !s.messages[h].blank && thread == Lookup(s.threads, s.messages[h].key)
    ensures s2 == s.(handlers := s.handlers[h := TurnDone(thread, result)],
                     turns := s.turns + [Turn(s.messages[h].key, thread, result, h)])
    ensures RunsTo(s, TurnSteps(h, result), s2)
  {
    var s1 := Next(s, Begin(h));
    LastTurnAppendOwn(s.turns, Turn(s.messages[h].key, thread, "", h));
    s2 := Next(s1, Return(h, result));
    RunStep(s1, Return(h, result), [], s2);
    RunStep(s, Begin(h), [Return(h, result)], s2);
  }

  lemma Leaves(s: State, h: nat, thread: string, result: string) returns (s2: State)
    requires Is(s, h, TurnDone(thread, result))
    ensures s2 == s.(handlers := s.handlers[h := Left], owner := s.owner - {s.messages[h].key},
                     threads := AfterTurn(s.threads, s.messages[h].key, thread, result))
    ensures RunsTo(s, LeaveSteps(h), s2)
  {
    var s1 := Next(s, Store(h));
    s2 := Next(s1, Unlock(h));
    RunStep(s1, Unlock(h), [], s2);
    RunStep(s, Store(h), [Unlock(h)], s2);
  }
}
