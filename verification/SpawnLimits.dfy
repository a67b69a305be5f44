/** What the tree of sub-turns guarantees at any time: limits, registration and child lists. */
module SpawnLimits {
  import opened SpawnTree

  /** The spawns of a parent that have begun and whose turn has not returned yet. */
  predicate IsBusy(sp: Spawn) {
    !sp.phase.Released? && !sp.phase.Gone?
  }

  function Busy(s: Tree, parent: nat): set<nat> {
    set id | id in s.spawns && IsBusy(s.spawns[id]) && s.spawns[id].parent == parent
  }

  /** The parent lists the turn as a child. */
  predicate IsLinked(phase: Phase) {
    phase.Running? || phase.Released? || phase.Panicked? || phase.Unregistered?
  }

  predicate SpawnFits(s: Tree, id: nat)
    requires id in s.spawns
  {
    var sp := s.spawns[id];
    && sp.parent in s.turns
    && (sp.semAcquired <==> sp.parent in s.semaphores)
    && (sp.phase.Registered? ==> id in s.active)
    && (sp.phase.Acquired? || sp.phase.Unregistered? || sp.phase.Gone? ==> id !in s.active)
    && (sp.phase.Acquired? ==> id !in s.turns)
    && (id in s.turns ==> !s.turns[id].isRoot)
    && (IsLinked(sp.phase) ==> id in s.turns[sp.parent].children)
  }

  predicate IsChildOf(s: Tree, child: nat, id: nat) {
    child in s.spawns && s.spawns[child].parent == id && !s.spawns[child].phase.Acquired? && !s.spawns[child].phase.Registered?
  }

  /** The children of a turn are spawns of its own that got that far, and a sub-turn has the limit. */
  predicate TurnFits(c: Config, s: Tree, id: nat)
    requires id in s.turns
  {
    && (forall child | child in s.turns[id].children :: IsChildOf(s, child, id))
    && (!s.turns[id].isRoot ==> id in s.semaphores && s.semaphores[id].capacity == c.maxConcurrent)
  }

  ghost predicate Fits(c: Config, s: Tree) {
    && Inv(c, s)
    && (forall id | id in s.spawns :: SpawnFits(s, id))
    && (forall id | id in s.turns :: TurnFits(c, s, id))
  }

  // ----- What a step leaves alone -----

  /** A turn that was there keeps its place, its semaphore and its children. */
  predicate TurnStays(s: Tree, s': Tree, id: nat) {
    && id in s.turns && id in s'.turns
    && s'.turns[id].isRoot == s.turns[id].isRoot && s.turns[id].children <= s'.turns[id].children
    && (id in s'.semaphores <==> id in s.semaphores)
    && (id in s.semaphores ==> s'.semaphores[id].capacity == s.semaphores[id].capacity)
  }

  /** A spawn that the step is not about. */
  predicate SpawnStays(s: Tree, s': Tree, id: nat) {
    && id in s.spawns && id in s'.spawns && s'.spawns[id] == s.spawns[id]
    && (id in s'.active <==> id in s.active) && (id in s'.turns <==> id in s.turns)
    && (id in s.turns && id in s'.turns ==> s'.turns[id].isRoot == s.turns[id].isRoot)
  }

  lemma FreeIs(s: Tree, id: nat, phase: Phase) returns (s': Tree)
    requires id in s.spawns
    ensures s' == Free(s, id, phase) && s'.turns == s.turns && s'.active == s.active
    ensures s'.semaphores.Keys == s.semaphores.Keys
    ensures forall p | p in s.semaphores :: s'.semaphores[p].capacity == s.semaphores[p].capacity
    ensures s'.spawns.Keys == s.spawns.Keys && forall i | i in s.spawns && i != id :: s'.spawns[i] == s.spawns[i]
    ensures s'.spawns[id] == s.spawns[id].(phase := phase, freed := s'.spawns[id].freed)
  {
    s' := Free(s, id, phase);
  }

  predicate Frees(step: Step) {
    step.Reject? || step.Release? || step.DeferredRelease?
  }

  lemma StepLeavesTurn(c: Config, s: Tree, step: Step, id: nat)
    requires Enabled(c, s, step) && id in s.turns && (step.Register? ==> step.id !in s.turns)
    ensures TurnStays(s, Next(c, s, step), id)
  {
    if Frees(step) {
      var s' := FreeIs(s, step.id, Next(c, s, step).spawns[step.id].phase);
    }
  }

  lemma StepLeavesSpawn(c: Config, s: Tree, step: Step, id: nat)
    requires Enabled(c, s, step) && id in s.spawns && id != step.id
    ensures SpawnStays(s, Next(c, s, step), id)
  {
    if Frees(step) {
      var s' := FreeIs(s, step.id, Next(c, s, step).spawns[step.id].phase);
    }
  }

  lemma FittingSpawnStays(s: Tree, s': Tree, id: nat)
    requires SpawnStays(s, s', id) && SpawnFits(s, id) && TurnStays(s, s', s.spawns[id].parent)
    ensures SpawnFits(s', id)
  {
  }

  // ----- The spawn that a step is about -----

  lemma MovedSpawnFits(c: Config, s: Tree, step: Step)
    requires Enabled(c, s, step) && step.id in s.spawns && SpawnFits(s, step.id) && !Frees(step) && !step.Register?
    ensures step.id in Next(c, s, step).spawns && SpawnFits(Next(c, s, step), step.id)
  {
  }

  lemma RegisteredSpawnFits(c: Config, s: Tree, id: nat)
    requires Enabled(c, s, Register(id)) && SpawnFits(s, id)
    ensures SpawnFits(Next(c, s, Register(id)), id)
  {
  }

  lemma FreedSpawnFits(c: Config, s: Tree, step: Step)
    requires Enabled(c, s, step) && Frees(step) && SpawnFits(s, step.id)
    ensures step.id in Next(c, s, step).spawns && SpawnFits(Next(c, s, step), step.id)
  {
    var s' := FreeIs(s, step.id, Next(c, s, step).spawns[step.id].phase);
  }

  lemma NewSpawnFits(c: Config, s: Tree, id: nat, parent: nat)
    requires Enabled(c, s, Acquire(id, parent)) && s.active <= s.turns.Keys
    ensures SpawnFits(Next(c, s, Acquire(id, parent)), id)
  {
  }

  lemma StepKeepsSpawnFits(c: Config, s: Tree, step: Step, id: nat)
    requires Fits(c, s) && Enabled(c, s, step) && id in Next(c, s, step).spawns
    ensures SpawnFits(Next(c, s, step), id)
  {
    if step.Register? {
      assert SpawnFits(s, step.id);
    }
    if id in s.spawns {
      assert SpawnFits(s, id);
      if id != step.id {
        StepLeavesSpawn(c, s, step, id);
        StepLeavesTurn(c, s, step, s.spawns[id].parent);
        FittingSpawnStays(s, Next(c, s, step), id);
      } else if Frees(step) {
        FreedSpawnFits(c, s, step);
      } else if step.Register? {
        RegisteredSpawnFits(c, s, id);
      } else {
        MovedSpawnFits(c, s, step);
      }
    } else {
      IdsAfter(c, s, step);
      NewSpawnFits(c, s, id, step.parent);
    }
  }

  /** Only acquiring adds a spawn; only a root or a registration adds a turn. */
  lemma IdsAfter(c: Config, s: Tree, step: Step)
    requires Enabled(c, s, step)
    ensures Next(c, s, step).spawns.Keys == s.spawns.Keys + if step.Acquire? then {step.id} else {}
    ensures Next(c, s, step).turns.Keys == s.turns.Keys + if step.AddRoot? || step.Register? then {step.id} else {}
  {
    if Frees(step) {
      var s' := FreeIs(s, step.id, Next(c, s, step).spawns[step.id].phase);
    }
  }

  // ----- The turns -----

  lemma ChildStays(c: Config, s: Tree, step: Step, child: nat, id: nat)
    requires Enabled(c, s, step) && IsChildOf(s, child, id)
    ensures IsChildOf(Next(c, s, step), child, id)
  {
    if Frees(step) {
      var s' := FreeIs(s, step.id, Next(c, s, step).spawns[step.id].phase);
    }
  }

  /** Only linking adds a child, the linked spawn to its parent. */
  lemma ChildrenAfter(c: Config, s: Tree, step: Step, id: nat)
    requires Enabled(c, s, step) && id in s.turns && (step.Register? ==> step.id !in s.turns)
    ensures id in Next(c, s, step).turns
    ensures Next(c, s, step).turns[id].children ==
              s.turns[id].children + if step.Link? && s.spawns[step.id].parent == id then [step.id] else []
  {
    assert s.turns[id].children + [] == s.turns[id].children;
    if Frees(step) {
      var s' := FreeIs(s, step.id, Next(c, s, step).spawns[step.id].phase);
    }
  }

  lemma StepKeepsChildren(c: Config, s: Tree, step: Step, id: nat, child: nat)
    requires Fits(c, s) && Enabled(c, s, step) && id in s.turns && id in Next(c, s, step).turns
    requires step.Register? ==> step.id !in s.turns
    requires child in Next(c, s, step).turns[id].children
    ensures IsChildOf(Next(c, s, step), child, id)
  {
    assert TurnFits(c, s, id);
    ChildrenAfter(c, s, step, id);
    if child in s.turns[id].children {
      ChildStays(c, s, step, child, id);
    }
  }

  lemma NewTurnFits(c: Config, s: Tree, step: Step)
    requires Enabled(c, s, step) && (step.AddRoot? || step.Register?) && step.id !in s.turns
    ensures step.id in Next(c, s, step).turns && TurnFits(c, Next(c, s, step), step.id)
  {
  }

  lemma StepKeepsTurnFits(c: Config, s: Tree, step: Step, id: nat)
    requires Fits(c, s) && Enabled(c, s, step) && id in Next(c, s, step).turns
    ensures TurnFits(c, Next(c, s, step), id)
  {
    if step.Register? {
      assert SpawnFits(s, step.id);
    }
    if id in s.turns {
      assert TurnFits(c, s, id);
      StepLeavesTurn(c, s, step, id);
      forall child | child in Next(c, s, step).turns[id].children
        ensures IsChildOf(Next(c, s, step), child, id)
      {
        StepKeepsChildren(c, s, step, id, child);
      }
    } else {
      IdsAfter(c, s, step);
      NewTurnFits(c, s, step);
    }
  }

  lemma StepKeepsFits(c: Config, s: Tree, step: Step)
    requires Fits(c, s) && Enabled(c, s, step)
    ensures Fits(c, Next(c, s, step))
  {
    StepKeepsInv(c, s, step);
    forall id | id in Next(c, s, step).spawns
      ensures SpawnFits(Next(c, s, step), id)
    {
      StepKeepsSpawnFits(c, s, step, id);
    }
    forall id | id in Next(c, s, step).turns
      ensures TurnFits(c, Next(c, s, step), id)
    {
      StepKeepsTurnFits(c, s, step, id);
    }
  }

  lemma {:induction false} RunKeepsFits(c: Config, s: Tree, steps: seq<Step>)
    requires Fits(c, s) && IsRun(c, s, steps)
    ensures Fits(c, Run(c, s, steps))
    decreases |steps|
  {
    if steps != [] {
      StepKeepsFits(c, s, steps[0]);
      RunKeepsFits(c, Next(c, s, steps[0]), steps[1..]);
    }
  }

  lemma {:induction false} RunKeepsSemaphore(c: Config, s: Tree, steps: seq<Step>, id: nat)
    requires Fits(c, s) && IsRun(c, s, steps) && id in s.turns
    ensures id in Run(c, s, steps).semaphores <==> id in s.semaphores
    ensures id in s.semaphores ==> Run(c, s, steps).semaphores[id].capacity == s.semaphores[id].capacity
    ensures id in Run(c, s, steps).turns
    decreases |steps|
  {
    if steps != [] {
      StepKeepsFits(c, s, steps[0]);
      if steps[0].Register? {
        assert SpawnFits(s, steps[0].id);
      }
      StepLeavesTurn(c, s, steps[0], id);
      RunKeepsSemaphore(c, Next(c, s, steps[0]), steps[1..], id);
    }
  }

  /** Under a semaphore the busy spawns are those that hold its slots. */
  lemma BusyHoldSlots(c: Config, s: Tree, id: nat)
    requires Fits(c, s) && id in s.semaphores
    ensures |Busy(s, id)| == s.semaphores[id].used <= s.semaphores[id].capacity
  {
    assert SemaphoreOk(s, id);
    forall i
      ensures i in Busy(s, id) <==> i in Holders(s.spawns, id)
    {
      assert i in s.spawns ==> SpawnFits(s, i);
    }
    assert Busy(s, id) == Holders(s.spawns, id);
  }

  // ----- Over every interleaving -----

  /** A sub-turn never has more unreturned spawns than the limit, and a spawn waits only at the limit. */
  lemma SubTurnsAreLimited(c: Config, steps: seq<Step>, id: nat, child: nat)
    requires IsRun(c, EMPTY, steps)
    ensures var s := Run(c, EMPTY, steps);
            id in s.turns && !s.turns[id].isRoot ==>
              && |Busy(s, id)| <= c.maxConcurrent
              && (child !in s.turns && child !in s.spawns ==>
                    (Enabled(c, s, Acquire(child, id)) <==> |Busy(s, id)| < c.maxConcurrent))
  {
    RunKeepsFits(c, EMPTY, steps);
    var s := Run(c, EMPTY, steps);
    if id in s.turns && !s.turns[id].isRoot {
      assert TurnFits(c, s, id);
      BusyHoldSlots(c, s, id);
    }
  }

  /** Nor does a root turn that was given a limit; one without a limit never makes a spawn wait. */
  lemma RootsAreLimited(c: Config, before: seq<Step>, id: nat, limit: nat, after: seq<Step>, child: nat)
    requires IsRun(c, EMPTY, before) && Enabled(c, Run(c, EMPTY, before), AddRoot(id, limit))
    requires IsRun(c, Next(c, Run(c, EMPTY, before), AddRoot(id, limit)), after)
    ensures var s := Run(c, Next(c, Run(c, EMPTY, before), AddRoot(id, limit)), after);
            && (limit > 0 ==> |Busy(s, id)| <= limit)
            && (child !in s.turns && child !in s.spawns ==>
                  (Enabled(c, s, Acquire(child, id)) <==> limit == 0 || |Busy(s, id)| < limit))
  {
    RunKeepsFits(c, EMPTY, before);
    var s0 := Run(c, EMPTY, before);
    var s1 := Next(c, s0, AddRoot(id, limit));
    StepKeepsFits(c, s0, AddRoot(id, limit));
    RunKeepsFits(c, s1, after);
    RunKeepsSemaphore(c, s1, after, id);
    assert id !in s0.semaphores;
    if limit > 0 {
      BusyHoldSlots(c, Run(c, s1, after), id);
    }
  }

  /**
   In every run: a turn that is registered but does not run yet is in the table of active turns, one that
   has left or was never registered is not; a spawn is among its parent's children as soon as it is
   linked and not before, and then lies one level below its parent.
   */
  lemma RegistrationIsExact(c: Config, steps: seq<Step>, id: nat)
    requires IsRun(c, EMPTY, steps) && id in Run(c, EMPTY, steps).spawns
    ensures var s := Run(c, EMPTY, steps);
            var sp := s.spawns[id];
            && (sp.phase.Registered? ==> id in s.active && id in s.turns)
            && (sp.phase.Acquired? || sp.phase.Unregistered? || sp.phase.Gone? ==> id !in s.active)
            && sp.parent in s.turns
            && (IsLinked(sp.phase) ==> id in s.turns[sp.parent].children)
            && (id in s.turns[sp.parent].children ==>
                  && !sp.phase.Acquired? && !sp.phase.Registered?
                  && id in s.turns && s.turns[id].depth == s.turns[sp.parent].depth + 1)
  {
    RunKeepsFits(c, EMPTY, steps);
    var s := Run(c, EMPTY, steps);
    var p := s.spawns[id].parent;
    assert SpawnFits(s, id) && SpawnOk(s, id) && TurnFits(c, s, p) && TurnOk(c, s, p);
  }
}
