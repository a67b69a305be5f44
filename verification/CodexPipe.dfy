/**
 The Codex pipe (`pkg/codexpipe`): one goroutine per message, a lock per session key, and the
 store of thread ids.
 */
module CodexPipe {

  type Key = string

  /** The sessionKey -> thread id mapping; the empty string stands for no thread. */
  class ThreadStore {
    var threads: map<Key, string>

    constructor (threads: map<Key, string>)
      ensures this.threads == threads
    {
      this.threads := threads;
    }

    method Get(key: Key) returns (id: string, ok: bool)
      ensures ok == (key in threads) && id == Lookup(threads, key)
    {
      ok := key in threads;
      id := if ok then threads[key] else "";
    }

    method Set(key: Key, id: string)
      modifies this
      ensures threads == old(threads)[key := id]
    {
      threads := threads[key := id];
    }

    /** After a turn on `thread` that returned the thread id `result`. */
    method RecordResult(key: Key, thread: string, result: string)
      modifies this
      ensures threads == AfterTurn(old(threads), key, thread, result)
    {
      if result != "" && result != thread {
        Set(key, result);
      }
    }
  }

  function AfterTurn(threads: map<Key, string>, key: Key, thread: string, result: string): map<Key, string> {
    if result != "" && result != thread then threads[key := result] else threads
  }

  function Lookup(threads: map<Key, string>, key: Key): string {
    if key in threads then threads[key] else ""
  }

  /** One inbound message. */
  datatype Message = Message(key: Key, observeOnly: bool, blank: bool)

  /** The progress of one `handle` goroutine. */
  datatype Handler =
    | Arrived
    | Waiting                      // has its session lock object, is blocked on it
    | Locked                       // holds the lock
    | InTurn(thread: string)       // runs a Codex turn on this thread
    | TurnDone(thread: string, result: string)
    | Unlocking
    | Left

  /** A turn that was started: its key, the thread it continued, what it returned so far, and its handler. */
  datatype Turn = Turn(key: Key, thread: string, result: string, handler: nat)

  datatype State = State(
    messages: map<nat, Message>, handlers: map<nat, Handler>,
    owner: map<Key, nat>, threads: map<Key, string>, turns: seq<Turn>)

  datatype Step =
    | Receive(h: nat, message: Message) | FetchLock(h: nat) | Lock(h: nat) | Begin(h: nat)
    | Return(h: nat, result: string)  // the empty result also stands for a failed turn without a thread
    | Store(h: nat) | Unlock(h: nat)

  function Initial(threads: map<Key, string>): State {
    State(map[], map[], map[], threads, [])
  }

  predicate Is(s: State, h: nat, handler: Handler) {
    h in s.handlers && h in s.messages && s.handlers[h] == handler
  }

  predicate Enabled(s: State, step: Step) {
    match step
    case Receive(h, _) => h !in s.handlers && h !in s.messages
    case FetchLock(h) => Is(s, h, Arrived)
    case Lock(h) => Is(s, h, Waiting) && s.messages[h].key !in s.owner
    case Begin(h) => Is(s, h, Locked)
    case Return(h, _) => h in s.handlers && h in s.messages && s.handlers[h].InTurn?
    case Store(h) => h in s.handlers && h in s.messages && s.handlers[h].TurnDone?
    case Unlock(h) => Is(s, h, Unlocking)
  }

  function Go(s: State, h: nat, handler: Handler): State {
    s.(handlers := s.handlers[h := handler])
  }

  /** The position of the last turn of a key, or the length of the list. */
  function LastTurn(turns: seq<Turn>, key: Key): (k: nat)
    ensures k <= |turns|
    ensures k < |turns| ==> turns[k].key == key
  {
    if turns == [] then 0
    else if turns[|turns| - 1].key == key then |turns| - 1
    else
      var k := LastTurn(turns[..|turns| - 1], key);
      if k == |turns| - 1 then |turns| else k
  }

  function SetResult(turns: seq<Turn>, key: Key, result: string): seq<Turn> {
    var k := LastTurn(turns, key);
    if k < |turns| then turns[k := turns[k].(result := result)] else turns
  }

  function Next(s: State, step: Step): State
    requires Enabled(s, step)
  {
    match step
    case Receive(h, message) => Go(s, h, Arrived).(messages := s.messages[h := message])
    case FetchLock(h) => Go(s, h, if s.messages[h].observeOnly then Left else Waiting)
    case Lock(h) => Go(s, h, Locked).(owner := s.owner[s.messages[h].key := h])
    case Begin(h) =>
      var m := s.messages[h];
      if m.blank then Go(s, h, Unlocking)
      else
        var thread := Lookup(s.threads, m.key);
        Go(s, h, InTurn(thread)).(turns := s.turns + [Turn(m.key, thread, "", h)])
    case Return(h, result) =>
      Go(s, h, TurnDone(s.handlers[h].thread, result)).(turns := SetResult(s.turns, s.messages[h].key, result))
    case Store(h) =>
      var d := s.handlers[h];
      Go(s, h, Unlocking).(threads := AfterTurn(s.threads, s.messages[h].key, d.thread, d.result))
    case Unlock(h) => Go(s, h, Left).(owner := s.owner - {s.messages[h].key})
  }

  predicate IsRun(s: State, steps: seq<Step>)
    decreases |steps|
  {
    steps == [] || (Enabled(s, steps[0]) && IsRun(Next(s, steps[0]), steps[1..]))
  }

  function Run(s: State, steps: seq<Step>): State
    requires IsRun(s, steps)
    decreases |steps|
  {
    if steps == [] then s else Run(Next(s, steps[0]), steps[1..])
  }

  // ----- The thread a session is on -----

  /** The last non-empty thread id that the turns of a key returned; at first the stored one. */
  function Thread(initial: map<Key, string>, turns: seq<Turn>, key: Key): string {
    if turns == [] then Lookup(initial, key)
    else
      var t := turns[|turns| - 1];
      if t.key == key && t.result != "" then t.result else Thread(initial, turns[..|turns| - 1], key)
  }

  /** Every turn continued the thread its session was on when it started. */
  predicate Continues(initial: map<Key, string>, turns: seq<Turn>) {
    forall k | 0 <= k < |turns| :: turns[k].thread == Thread(initial, turns[..k], turns[k].key)
  }

  lemma ThreadAppend(initial: map<Key, string>, turns: seq<Turn>, t: Turn, key: Key)
    ensures Thread(initial, turns + [t], key) ==
              if t.key == key && t.result != "" then t.result else Thread(initial, turns, key)
  {
    assert (turns + [t])[..|turns|] == turns;
  }

  /** The result of a key's last turn concerns that key only, and nothing before it. */
  lemma {:induction false} SetResultOnThread(initial: map<Key, string>, turns: seq<Turn>, key: Key, result: string, other: Key)
    requires LastTurn(turns, key) < |turns| && turns[LastTurn(turns, key)].result == ""
    ensures Thread(initial, SetResult(turns, key, result), other) ==
              if other == key && result != "" then result else Thread(initial, turns, other)
    decreases |turns|
  {
    var n := |turns| - 1;
    var changed := SetResult(turns, key, result);
    if turns[n].key == key {
      assert changed[..n] == turns[..n];
    } else {
      SetResultOnThread(initial, turns[..n], key, result, other);
      assert changed[..n] == SetResult(turns[..n], key, result);
    }
  }

  /** No turn after a key's last turn is of that key. */
  lemma {:induction false} LastTurnIsLast(turns: seq<Turn>, key: Key)
    ensures forall k | LastTurn(turns, key) < k < |turns| :: turns[k].key != key
  {
    if turns != [] && turns[|turns| - 1].key != key {
      LastTurnIsLast(turns[..|turns| - 1], key);
    }
  }

  lemma {:induction false} SetResultContinues(initial: map<Key, string>, turns: seq<Turn>, key: Key, result: string)
    requires Continues(initial, turns)
    requires LastTurn(turns, key) < |turns| && turns[LastTurn(turns, key)].result == ""
    ensures Continues(initial, SetResult(turns, key, result))
    decreases |turns|
  {
    var n := |turns| - 1;
    var changed := SetResult(turns, key, result);
    forall k | 0 <= k < |changed|
      ensures changed[k].thread == Thread(initial, changed[..k], changed[k].key)
    {
      assert turns[k].thread == Thread(initial, turns[..k], turns[k].key);
      var p := LastTurn(turns, key);
      if k <= p {
        assert changed[..k] == turns[..k];
      } else {
        LastTurnIsLast(turns, key);
        LastTurnOfPrefix(turns, key, k);
        assert changed[..k] == SetResult(turns[..k], key, result);
        SetResultOnThread(initial, turns[..k], key, result, turns[k].key);
      }
    }
  }

  lemma {:induction false} LastTurnOfPrefix(turns: seq<Turn>, key: Key, k: nat)
    requires LastTurn(turns, key) < k <= |turns|
    ensures LastTurn(turns[..k], key) == LastTurn(turns, key)
    decreases |turns| - k
  {
    if k < |turns| {
      LastTurnIsLast(turns, key);
      LastTurnOfPrefix(turns, key, k + 1);
      assert turns[..k + 1][..k] == turns[..k];
    } else {
      assert turns[..k] == turns;
    }
  }

  // ----- The invariant -----

  predicate HoldsLock(handler: Handler) {
    handler.Locked? || handler.InTurn? || handler.TurnDone? || handler.Unlocking?
  }

  predicate HandlerOk(s: State, h: nat)
    requires h in s.handlers
  {
    && h in s.messages
    && (HoldsLock(s.handlers[h]) ==> s.messages[h].key in s.owner && s.owner[s.messages[h].key] == h)
  }

  /** The thread of a key, seen through the handler `h` that holds its lock. */
  predicate OwnerOk(initial: map<Key, string>, s: State, key: Key)
    requires key in s.owner
  {
    var h := s.owner[key];
    && h in s.handlers && h in s.messages && s.messages[h].key == key && HoldsLock(s.handlers[h])
    && match s.handlers[h]
       case InTurn(thread) =>
         && Lookup(s.threads, key) == thread == Thread(initial, s.turns, key)
         && LastTurn(s.turns, key) < |s.turns| && s.turns[LastTurn(s.turns, key)].result == ""
       case TurnDone(thread, result) =>
         && Lookup(s.threads, key) == thread
         && Thread(initial, s.turns, key) == if result != "" then result else thread
       case _ => Lookup(s.threads, key) == Thread(initial, s.turns, key)
  }

  ghost predicate Inv(initial: map<Key, string>, s: State) {
    && (forall h | h in s.handlers :: HandlerOk(s, h))
    && (forall key | key in s.owner :: OwnerOk(initial, s, key))
    && (forall key :: key !in s.owner ==> Lookup(s.threads, key) == Thread(initial, s.turns, key))
    && Continues(initial, s.turns)
  }

  lemma ReceiveKeepsInv(initial: map<Key, string>, s: State, h: nat, message: Message)
    requires Inv(initial, s) && Enabled(s, Receive(h, message))
    ensures Inv(initial, Next(s, Receive(h, message)))
  {
    var s' := Next(s, Receive(h, message));
    forall i | i in s'.handlers ensures HandlerOk(s', i) {
      if i != h { assert HandlerOk(s, i); }
    }
    forall key | key in s'.owner ensures OwnerOk(initial, s', key) {
      assert OwnerOk(initial, s, key);
    }
  }

  lemma FetchLockKeepsInv(initial: map<Key, string>, s: State, h: nat)
    requires Inv(initial, s) && Enabled(s, FetchLock(h))
    ensures Inv(initial, Next(s, FetchLock(h)))
  {
    var s' := Next(s, FetchLock(h));
    forall i | i in s'.handlers ensures HandlerOk(s', i) {
      assert HandlerOk(s, i);
    }
    forall key | key in s'.owner ensures OwnerOk(initial, s', key) {
      assert OwnerOk(initial, s, key);
    }
  }

  lemma LockKeepsInv(initial: map<Key, string>, s: State, h: nat)
    requires Inv(initial, s) && Enabled(s, Lock(h))
    ensures Inv(initial, Next(s, Lock(h)))
  {
    var s' := Next(s, Lock(h));
    forall i | i in s'.handlers ensures HandlerOk(s', i) {
      assert HandlerOk(s, i);
    }
    forall key | key in s'.owner ensures OwnerOk(initial, s', key) {
      if key != s.messages[h].key { assert OwnerOk(initial, s, key); }
    }
  }

  lemma BeginKeepsInv(initial: map<Key, string>, s: State, h: nat)
    requires Inv(initial, s) && Enabled(s, Begin(h))
    ensures Inv(initial, Next(s, Begin(h)))
  {
    var s', m := Next(s, Begin(h)), s.messages[h];
    assert HandlerOk(s, h);
    forall i | i in s'.handlers ensures HandlerOk(s', i) {
      assert HandlerOk(s, i);
    }
    var t := Turn(m.key, Lookup(s.threads, m.key), "", h);
    forall key ensures !m.blank ==> Thread(initial, s'.turns, key) == Thread(initial, s.turns, key) {
      ThreadAppend(initial, s.turns, t, key);
    }
    forall key | key in s'.owner ensures OwnerOk(initial, s', key) {
      BeginKeepsOwner(initial, s, h, key);
    }
    if !m.blank {
      assert OwnerOk(initial, s, m.key);
      ContinuesAppend(initial, s.turns, t);
    }
  }

  lemma BeginKeepsOwner(initial: map<Key, string>, s: State, h: nat, key: Key)
    requires Enabled(s, Begin(h)) && HandlerOk(s, h) && key in s.owner && OwnerOk(initial, s, key)
    ensures OwnerOk(initial, Next(s, Begin(h)), key)
  {
    var m := s.messages[h];
    if !m.blank {
      var t := Turn(m.key, Lookup(s.threads, m.key), "", h);
      ThreadAppend(initial, s.turns, t, key);
      if key != m.key {
        LastTurnAppendOther(s.turns, t, key);
      } else {
        LastTurnAppendOwn(s.turns, t);
      }
    }
  }

  lemma LastTurnAppendOwn(turns: seq<Turn>, t: Turn)
    ensures LastTurn(turns + [t], t.key) == |turns|
  {
  }

  lemma LastTurnAppendOther(turns: seq<Turn>, t: Turn, key: Key)
    requires t.key != key
    ensures LastTurn(turns, key) < |turns| ==> LastTurn(turns + [t], key) == LastTurn(turns, key)
  {
    assert (turns + [t])[..|turns|] == turns;
  }

  lemma ContinuesAppend(initial: map<Key, string>, turns: seq<Turn>, t: Turn)
    requires Continues(initial, turns) && t.thread == Thread(initial, turns, t.key)
    ensures Continues(initial, turns + [t])
  {
    var longer := turns + [t];
    forall k | 0 <= k < |longer|
      ensures longer[k].thread == Thread(initial, longer[..k], longer[k].key)
    {
      assert longer[..k] == turns[..k];
      if k == |turns| {
        assert turns[..k] == turns;
      }
    }
  }

  lemma ReturnKeepsInv(initial: map<Key, string>, s: State, h: nat, result: string)
    requires Inv(initial, s) && Enabled(s, Return(h, result))
    ensures Inv(initial, Next(s, Return(h, result)))
  {
    var s', key0 := Next(s, Return(h, result)), s.messages[h].key;
    assert HandlerOk(s, h);
    assert OwnerOk(initial, s, key0);
    SetResultContinues(initial, s.turns, key0, result);
    forall i | i in s'.handlers ensures HandlerOk(s', i) {
      assert HandlerOk(s, i);
    }
    forall key
      ensures Thread(initial, s'.turns, key) == if key == key0 && result != "" then result else Thread(initial, s.turns, key)
    {
      SetResultOnThread(initial, s.turns, key0, result, key);
    }
    forall key | key in s'.owner ensures OwnerOk(initial, s', key) {
      ReturnKeepsOwner(initial, s, h, result, key);
    }
  }

  lemma ReturnKeepsOwner(initial: map<Key, string>, s: State, h: nat, result: string, key: Key)
    requires Enabled(s, Return(h, result)) && HandlerOk(s, h) && OwnerOk(initial, s, s.messages[h].key)
    requires key in s.owner && OwnerOk(initial, s, key)
    ensures OwnerOk(initial, Next(s, Return(h, result)), key)
  {
    var key0 := s.messages[h].key;
    SetResultOnThread(initial, s.turns, key0, result, key);
    if key != key0 {
      LastTurnAfterSet(s.turns, key0, result, key);
    }
  }

  lemma {:induction false} LastTurnAfterSet(turns: seq<Turn>, key: Key, result: string, other: Key)
    requires key != other
    ensures LastTurn(SetResult(turns, key, result), other) == LastTurn(turns, other)
    ensures LastTurn(turns, other) < |turns| ==>
              SetResult(turns, key, result)[LastTurn(turns, other)] == turns[LastTurn(turns, other)]
    decreases |turns|
  {
    if turns != [] {
      var n := |turns| - 1;
      var changed := SetResult(turns, key, result);
      if turns[n].key == key {
        assert changed[..n] == turns[..n];
      } else {
        LastTurnAfterSet(turns[..n], key, result, other);
        assert changed[..n] == SetResult(turns[..n], key, result);
      }
    }
  }

  /** Storing only a new, non-empty id leaves the key on the returned thread, if there was one. */
  lemma StoredThread(s: State, h: nat, key: Key)
    requires Enabled(s, Store(h)) && Lookup(s.threads, s.messages[h].key) == s.handlers[h].thread
    ensures Lookup(Next(s, Store(h)).threads, key) ==
              if key == s.messages[h].key && s.handlers[h].result != "" then s.handlers[h].result
              else Lookup(s.threads, key)
  {
  }

  lemma StoreKeepsInv(initial: map<Key, string>, s: State, h: nat)
    requires Inv(initial, s) && Enabled(s, Store(h))
    ensures Inv(initial, Next(s, Store(h)))
  {
    var s', key0 := Next(s, Store(h)), s.messages[h].key;
    assert HandlerOk(s, h);
    assert OwnerOk(initial, s, key0);
    forall key ensures key != key0 ==> Lookup(s'.threads, key) == Lookup(s.threads, key) {
      StoredThread(s, h, key);
    }
    StoredThread(s, h, key0);
    assert Lookup(s'.threads, key0) == Thread(initial, s.turns, key0);
    forall i | i in s'.handlers ensures HandlerOk(s', i) {
      assert HandlerOk(s, i);
    }
    forall key | key in s'.owner ensures OwnerOk(initial, s', key) {
      assert OwnerOk(initial, s, key);
    }
  }

  lemma UnlockKeepsInv(initial: map<Key, string>, s: State, h: nat)
    requires Inv(initial, s) && Enabled(s, Unlock(h))
    ensures Inv(initial, Next(s, Unlock(h)))
  {
    var s' := Next(s, Unlock(h));
    assert HandlerOk(s, h);
    assert OwnerOk(initial, s, s.messages[h].key);
    forall i | i in s'.handlers ensures HandlerOk(s', i) {
      assert HandlerOk(s, i);
    }
    forall key | key in s'.owner ensures OwnerOk(initial, s', key) {
      assert OwnerOk(initial, s, key);
    }
  }

  lemma StepKeepsInv(initial: map<Key, string>, s: State, step: Step)
    requires Inv(initial, s) && Enabled(s, step)
    ensures Inv(initial, Next(s, step))
  {
    match step {
      case Receive(h, message) => ReceiveKeepsInv(initial, s, h, message);
      case FetchLock(h) => FetchLockKeepsInv(initial, s, h);
      case Lock(h) => LockKeepsInv(initial, s, h);
      case Begin(h) => BeginKeepsInv(initial, s, h);
      case Return(h, result) => ReturnKeepsInv(initial, s, h, result);
      case Store(h) => StoreKeepsInv(initial, s, h);
      case Unlock(h) => UnlockKeepsInv(initial, s, h);
    }
  }

  lemma {:induction false} RunKeepsInv(initial: map<Key, string>, s: State, steps: seq<Step>)
    requires Inv(initial, s) && IsRun(s, steps)
    ensures Inv(initial, Run(s, steps))
    decreases |steps|
  {
    if steps != [] {
      StepKeepsInv(initial, s, steps[0]);
      RunKeepsInv(initial, Next(s, steps[0]), steps[1..]);
    }
  }

  // ----- Over every interleaving -----

  /** At most one turn runs per session key. */
  lemma OneTurnPerKey(initial: map<Key, string>, steps: seq<Step>, g: nat, h: nat)
    requires IsRun(Initial(initial), steps)
    ensures var s := Run(Initial(initial), steps);
            g in s.handlers && h in s.handlers && s.handlers[g].InTurn? && s.handlers[h].InTurn? ==>
              g in s.messages && h in s.messages && (s.messages[g].key == s.messages[h].key ==> g == h)
  {
    RunKeepsInv(initial, Initial(initial), steps);
    var s := Run(Initial(initial), steps);
    if g in s.handlers && h in s.handlers {
      assert HandlerOk(s, g) && HandlerOk(s, h);
    }
  }

  /**
   Every turn continues the last non-empty thread id that the earlier turns of its key returned -
   or the stored one, if they returned none - in the order in which they held the lock.
   */
  lemma TurnsContinueTheirThread(initial: map<Key, string>, steps: seq<Step>, k: nat)
    requires IsRun(Initial(initial), steps)
    ensures var turns := Run(Initial(initial), steps).turns;
            k < |turns| ==> turns[k].thread == Thread(initial, turns[..k], turns[k].key)
  {
    RunKeepsInv(initial, Initial(initial), steps);
  }
}
