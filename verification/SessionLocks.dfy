/**
 The lock table of the Codex pipe (`pipe.go`): one mutex object per session key, created on first
 use. With it the pipe refines the steps of `CodexPipe`, in which a key itself can be owned.
 */
module SessionLocks {
  import opened CodexPipe
  import opened PipeTurns

  /** A mutex object, known by the order of its creation. */
  type LockId = nat

  class LockTable {
    var sessions: map<Key, LockId>
    var created: nat

    ghost predicate Valid()
      reads this
    {
      TableOk(sessions, created)
    }

    constructor ()
      ensures Valid() && sessions == map[]
    {
      sessions, created := map[], 0;
    }

    /** The same key always gets the same mutex, and different keys get different ones. */
    method SessionLock(key: Key) returns (lock: LockId)
      requires Valid()
      modifies this
      ensures Valid() && key in sessions && sessions[key] == lock
      ensures old(sessions).Keys + {key} == sessions.Keys
      ensures forall k | k in old(sessions) :: sessions[k] == old(sessions)[k]
      ensures forall k | k in sessions && k != key :: sessions[k] != lock
    {
      if key in sessions {
        return sessions[key];
      }
      lock := created;
      created := created + 1;
      sessions := sessions[key := lock];
    }
  }

  predicate TableOk(sessions: map<Key, LockId>, created: nat) {
    (forall k | k in sessions :: sessions[k] < created) &&
    (forall k, l | k in sessions && l in sessions && sessions[k] == sessions[l] :: k == l)
  }

  /** `got` is the mutex that a handler fetched, `held` the handler that has locked a mutex. */
  datatype Pipe = Pipe(
    messages: map<nat, Message>, handlers: map<nat, Handler>, threads: map<Key, string>, turns: seq<Turn>,
    sessions: map<Key, LockId>, created: nat, got: map<nat, LockId>, held: map<LockId, nat>)

  function Start(threads: map<Key, string>): Pipe {
    Pipe(map[], map[], threads, [], map[], 0, map[], map[])
  }

  /** A key is owned by the handler that has locked its mutex. */
  function Owners(sessions: map<Key, LockId>, held: map<LockId, nat>): map<Key, nat> {
    map key | key in sessions && sessions[key] in held :: held[sessions[key]]
  }

  function Abstract(p: Pipe): State {
    State(p.messages, p.handlers, Owners(p.sessions, p.held), p.threads, p.turns)
  }

  /** Only the mutex object decides who may lock. */
  predicate CanStep(p: Pipe, step: Step) {
    match step
    case Lock(h) => Is(Abstract(p), h, Waiting) && h in p.got && p.got[h] !in p.held
    case Unlock(h) => Is(Abstract(p), h, Unlocking) && h in p.got
    case _ => Enabled(Abstract(p), step)
  }

  function Do(p: Pipe, step: Step): Pipe
    requires CanStep(p, step)
  {
    match step
    case FetchLock(h) =>
      if p.messages[h].observeOnly then p.(handlers := p.handlers[h := Left])
      else
        var key := p.messages[h].key;
        var lock := if key in p.sessions then p.sessions[key] else p.created;
        p.(handlers := p.handlers[h := Waiting], got := p.got[h := lock], sessions := p.sessions[key := lock],
           created := if key in p.sessions then p.created else p.created + 1)
    case Lock(h) => p.(handlers := p.handlers[h := Locked], held := p.held[p.got[h] := h])
    case Unlock(h) => p.(handlers := p.handlers[h := Left], held := p.held - {p.got[h]})
    case _ =>
      var s := Next(Abstract(p), step);
      p.(messages := s.messages, handlers := s.handlers, threads := s.threads, turns := s.turns)
  }

  predicate CanRun(p: Pipe, steps: seq<Step>)
    decreases |steps|
  {
    steps == [] || (CanStep(p, steps[0]) && CanRun(Do(p, steps[0]), steps[1..]))
  }

  function RunPipe(p: Pipe, steps: seq<Step>): Pipe
    requires CanRun(p, steps)
    decreases |steps|
  {
    if steps == [] then p else RunPipe(Do(p, steps[0]), steps[1..])
  }

  // ----- Refinement -----

  /** A handler that waits for its lock or holds it has the mutex of its key. */
  predicate GotOk(p: Pipe, h: nat)
    requires h in p.handlers
  {
    p.handlers[h] == Waiting || HoldsLock(p.handlers[h]) ==>
      && h in p.messages && h in p.got
      && p.messages[h].key in p.sessions && p.sessions[p.messages[h].key] == p.got[h]
      && (HoldsLock(p.handlers[h]) ==> p.got[h] in p.held && p.held[p.got[h]] == h)
  }

  predicate HeldOk(p: Pipe, lock: LockId)
    requires lock in p.held
  {
    var h := p.held[lock];
    lock < p.created && h in p.handlers && HoldsLock(p.handlers[h]) && h in p.got && p.got[h] == lock
  }

  ghost predicate PipeInv(p: Pipe) {
    && TableOk(p.sessions, p.created)
    && (forall h | h in p.handlers :: GotOk(p, h))
    && (forall lock | lock in p.held :: HeldOk(p, lock))
  }

  lemma OwnersAfterFetch(sessions: map<Key, LockId>, held: map<LockId, nat>, key: Key, lock: LockId)
    requires key !in sessions && lock !in held
    ensures Owners(sessions[key := lock], held) == Owners(sessions, held)
  {
  }

  lemma OwnersAfterLock(sessions: map<Key, LockId>, created: nat, held: map<LockId, nat>, key: Key, h: nat)
    requires TableOk(sessions, created) && key in sessions
    ensures Owners(sessions, held[sessions[key] := h]) == Owners(sessions, held)[key := h]
  {
  }

  lemma OwnersAfterUnlock(sessions: map<Key, LockId>, created: nat, held: map<LockId, nat>, key: Key)
    requires TableOk(sessions, created) && key in sessions
    ensures Owners(sessions, held - {sessions[key]}) == Owners(sessions, held) - {key}
  {
  }

  lemma FetchLockRefines(p: Pipe, h: nat)
    requires PipeInv(p) && CanStep(p, FetchLock(h))
    ensures Abstract(Do(p, FetchLock(h))) == Next(Abstract(p), FetchLock(h))
  {
    var key := p.messages[h].key;
    if key in p.sessions {
      assert p.sessions[key := p.sessions[key]] == p.sessions;
    } else {
      assert p.created in p.held ==> HeldOk(p, p.created);
      OwnersAfterFetch(p.sessions, p.held, key, p.created);
    }
  }

  lemma LockRefines(p: Pipe, h: nat)
    requires PipeInv(p) && CanStep(p, Lock(h))
    ensures Enabled(Abstract(p), Lock(h)) && Abstract(Do(p, Lock(h))) == Next(Abstract(p), Lock(h))
  {
    assert GotOk(p, h);
    OwnersAfterLock(p.sessions, p.created, p.held, p.messages[h].key, h);
  }

  lemma UnlockRefines(p: Pipe, h: nat)
    requires PipeInv(p) && CanStep(p, Unlock(h))
    ensures Abstract(Do(p, Unlock(h))) == Next(Abstract(p), Unlock(h))
  {
    assert GotOk(p, h);
    OwnersAfterUnlock(p.sessions, p.created, p.held, p.messages[h].key);
  }

  /** Every step of the pipe with its mutex objects is the same step of the pipe with owned keys. */
  lemma StepRefines(p: Pipe, step: Step)
    requires PipeInv(p) && CanStep(p, step)
    ensures Enabled(Abstract(p), step) && Abstract(Do(p, step)) == Next(Abstract(p), step)
  {
    match step {
      case FetchLock(h) => FetchLockRefines(p, h);
      case Lock(h) => LockRefines(p, h);
      case Unlock(h) => UnlockRefines(p, h);
      case _ =>
    }
  }

  /** A step is possible with the mutex objects exactly when it is possible with owned keys. */
  lemma CanStepIff(p: Pipe, step: Step)
    requires PipeInv(p)
    ensures CanStep(p, step) <==> Enabled(Abstract(p), step)
  {
    if step.Lock? && Is(Abstract(p), step.h, Waiting) {
      assert GotOk(p, step.h);
    } else if step.Unlock? && Is(Abstract(p), step.h, Unlocking) {
      assert GotOk(p, step.h);
    }
  }

  lemma FetchLockKeepsGot(p: Pipe, h: nat, g: nat)
    requires CanStep(p, FetchLock(h)) && g in p.handlers && GotOk(p, g)
    ensures GotOk(Do(p, FetchLock(h)), g)
  {
    if g != h {
      assert Do(p, FetchLock(h)).handlers[g] == p.handlers[g];
    }
  }

  lemma FetchLockKeepsHeld(p: Pipe, h: nat, lock: LockId)
    requires CanStep(p, FetchLock(h)) && lock in p.held && HeldOk(p, lock)
    ensures HeldOk(Do(p, FetchLock(h)), lock)
  {
    assert p.held[lock] != h;
  }

  lemma FetchLockKeepsPipeInv(p: Pipe, h: nat)
    requires PipeInv(p) && CanStep(p, FetchLock(h))
    ensures PipeInv(Do(p, FetchLock(h)))
  {
    var p' := Do(p, FetchLock(h));
    assert TableOk(p'.sessions, p'.created);
    forall g | g in p'.handlers ensures GotOk(p', g) {
      FetchLockKeepsGot(p, h, g);
    }
    forall lock | lock in p'.held ensures HeldOk(p', lock) {
      FetchLockKeepsHeld(p, h, lock);
    }
  }

  lemma LockKeepsPipeInv(p: Pipe, h: nat)
    requires PipeInv(p) && CanStep(p, Lock(h))
    ensures PipeInv(Do(p, Lock(h)))
  {
    var p' := Do(p, Lock(h));
    forall g | g in p'.handlers ensures GotOk(p', g) {
      assert GotOk(p, g) && GotOk(p, h);
    }
    forall lock | lock in p'.held ensures HeldOk(p', lock) {
      assert lock in p.held ==> HeldOk(p, lock);
      assert GotOk(p, h);
    }
  }

  lemma UnlockKeepsPipeInv(p: Pipe, h: nat)
    requires PipeInv(p) && CanStep(p, Unlock(h))
    ensures PipeInv(Do(p, Unlock(h)))
  {
    var p' := Do(p, Unlock(h));
    assert GotOk(p, h);
    forall g | g in p'.handlers ensures GotOk(p', g) {
      assert GotOk(p, g);
    }
    forall lock | lock in p'.held ensures HeldOk(p', lock) {
      assert HeldOk(p, lock);
    }
  }

  /** The steps between locking and unlocking, and an arrival, leave the locks alone. */
  lemma OtherStepKeepsHandler(p: Pipe, step: Step, g: nat)
    requires CanStep(p, step) && !step.FetchLock? && !step.Lock? && !step.Unlock? && g in p.handlers
    ensures var p' := Do(p, step);
            && g in p'.handlers && HoldsLock(p'.handlers[g]) == HoldsLock(p.handlers[g])
            && (p'.handlers[g] == Waiting <==> p.handlers[g] == Waiting)
            && (g in p.messages ==> g in p'.messages && p'.messages[g] == p.messages[g])
  {
  }

  lemma OtherStepKeepsPipeInv(p: Pipe, step: Step)
    requires PipeInv(p) && CanStep(p, step) && !step.FetchLock? && !step.Lock? && !step.Unlock?
    ensures PipeInv(Do(p, step))
  {
    var p' := Do(p, step);
    forall g | g in p'.handlers ensures GotOk(p', g) {
      if g in p.handlers {
        assert GotOk(p, g);
        OtherStepKeepsHandler(p, step, g);
      }
    }
    forall lock | lock in p'.held ensures HeldOk(p', lock) {
      assert HeldOk(p, lock);
      OtherStepKeepsHandler(p, step, p.held[lock]);
    }
  }

  lemma StepKeepsPipeInv(p: Pipe, step: Step)
    requires PipeInv(p) && CanStep(p, step)
    ensures PipeInv(Do(p, step))
  {
    match step {
      case FetchLock(h) => FetchLockKeepsPipeInv(p, h);
      case Lock(h) => LockKeepsPipeInv(p, h);
      case Unlock(h) => UnlockKeepsPipeInv(p, h);
      case _ => OtherStepKeepsPipeInv(p, step);
    }
  }

  /** The mutex objects allow all the runs that owned keys allow. */
  lemma {:induction false} CanRunIff(p: Pipe, steps: seq<Step>)
    requires PipeInv(p)
    ensures CanRun(p, steps) <==> IsRun(Abstract(p), steps)
    decreases |steps|
  {
    if steps != [] {
      CanStepIff(p, steps[0]);
      if CanStep(p, steps[0]) {
        StepRefines(p, steps[0]);
        StepKeepsPipeInv(p, steps[0]);
        CanRunIff(Do(p, steps[0]), steps[1..]);
      }
    }
  }

  /** Every run of the pipe with its mutex objects is a run of the pipe with owned keys. */
  lemma {:induction false} RunRefines(p: Pipe, steps: seq<Step>)
    requires PipeInv(p) && CanRun(p, steps)
    ensures IsRun(Abstract(p), steps) && Run(Abstract(p), steps) == Abstract(RunPipe(p, steps))
    decreases |steps|
  {
    if steps != [] {
      StepRefines(p, steps[0]);
      StepKeepsPipeInv(p, steps[0]);
      RunRefines(Do(p, steps[0]), steps[1..]);
    }
  }

  /** In every interleaving at most one turn runs per session key. */
  lemma MutexesExclude(threads: map<Key, string>, steps: seq<Step>, g: nat, h: nat)
    requires CanRun(Start(threads), steps)
    ensures var p := RunPipe(Start(threads), steps);
            g in p.handlers && h in p.handlers && p.handlers[g].InTurn? && p.handlers[h].InTurn? ==>
              g in p.messages && h in p.messages && (p.messages[g].key == p.messages[h].key ==> g == h)
  {
    assert Abstract(Start(threads)) == Initial(threads);
    RunRefines(Start(threads), steps);
    OneTurnPerKey(threads, steps, g, h);
  }

  /** And every turn continues the thread that the turns of its key before it were on. */
  lemma PipeContinuesThreads(threads: map<Key, string>, steps: seq<Step>, k: nat)
    requires CanRun(Start(threads), steps)
    ensures var turns := RunPipe(Start(threads), steps).turns;
            k < |turns| ==> turns[k].thread == Thread(threads, turns[..k], turns[k].key)
  {
    assert Abstract(Start(threads)) == Initial(threads);
    RunRefines(Start(threads), steps);
    TurnsContinueTheirThread(threads, steps, k);
  }

  /** Every message that is neither blank nor only observed gets exactly one turn, in its own session. */
  lemma PipeAnswersEachMessage(threads: map<Key, string>, steps: seq<Step>, key: Key)
    requires CanRun(Start(threads), steps)
    ensures var p := RunPipe(Start(threads), steps);
            OneTurnEach(p.turns) && HadTurn(p.turns, key) == ShouldHave(Abstract(p), key)
  {
    assert Abstract(Start(threads)) == Initial(threads);
    RunRefines(Start(threads), steps);
    EachMessageGetsItsTurn(threads, steps, key);
  }
}
