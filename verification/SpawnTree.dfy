/**
 The tree of sub-turns (`spawnSubTurn` in `subturn.go`): depth, concurrency slots, registration,
 and the cascade of a hard abort (`Finish(true)` in `turn.go`).
 */
module SpawnTree {

  /** A registered turn. Only sub-turns refer back to the agent loop, which the cascade needs. */
  datatype Turn = Turn(depth: nat, isRoot: bool, children: seq<nat>)

  /** Where a `spawnSubTurn` call stands. */
  datatype Phase =
    | Acquired      // past the semaphore, before validation
    | Registered    // its turn is in the table of active turns
    | Running       // its turn is listed as a child of the parent
    | Released      // the turn returned and its slot was freed at once
    | Panicked      // the turn panicked: the slot is left to the deferred release
    | Unregistered  // after a panic, out of the table
    | Gone

  /** `semAcquired` tells whether the parent has a semaphore at all; `freed` counts the releases. */
  datatype Spawn = Spawn(parent: nat, semAcquired: bool, phase: Phase, freed: nat)

  datatype Semaphore = Semaphore(used: int, capacity: nat)

  datatype Tree = Tree(turns: map<nat, Turn>, spawns: map<nat, Spawn>, semaphores: map<nat, Semaphore>, active: set<nat>)

  datatype Config = Config(maxDepth: nat, maxConcurrent: nat)

  datatype Step =
    | AddRoot(id: nat, limit: nat)    // a limit of zero means: without a semaphore
    | Acquire(id: nat, parent: nat)
    | Reject(id: nat)                 // depth limit or invalid configuration: the deferred release
    | Register(id: nat)
    | Link(id: nat)
    | Release(id: nat)
    | Clear(id: nat)                  // the turn takes itself out of the table as it returns
    | Leave(id: nat)
    | Panic(id: nat)
    | Unregister(id: nat)
    | DeferredRelease(id: nat)

  const EMPTY := Tree(map[], map[], map[], {})

  predicate At(s: Tree, id: nat, phase: Phase) {
    id in s.spawns && s.spawns[id].phase == phase
  }

  predicate HasRoom(s: Tree, parent: nat) {
    parent in s.semaphores ==> s.semaphores[parent].used < s.semaphores[parent].capacity
  }

  predicate Enabled(c: Config, s: Tree, step: Step) {
    match step
    case AddRoot(id, _) => id !in s.turns && id !in s.spawns
    case Acquire(id, parent) => id !in s.turns && id !in s.spawns && parent in s.turns && HasRoom(s, parent)
    case Reject(id) => At(s, id, Acquired)
    case Register(id) => At(s, id, Acquired) && s.spawns[id].parent in s.turns && s.turns[s.spawns[id].parent].depth < c.maxDepth
    case Link(id) => At(s, id, Registered) && s.spawns[id].parent in s.turns
    case Release(id) => At(s, id, Running)
    case Clear(id) => id in s.turns && (s.turns[id].isRoot || At(s, id, Running))
    case Leave(id) => At(s, id, Released)
    case Panic(id) => At(s, id, Running)
    case Unregister(id) => At(s, id, Panicked)
    case DeferredRelease(id) => At(s, id, Unregistered)
  }

  function Move(s: Tree, id: nat, phase: Phase): Tree
    requires id in s.spawns
  {
    s.(spawns := s.spawns[id := s.spawns[id].(phase := phase)])
  }

  /** Receives from the parent's semaphore, if the spawn has sent to it, and goes on to `phase`. */
  function Free(s: Tree, id: nat, phase: Phase): Tree
    requires id in s.spawns
  {
    var sp := s.spawns[id];
    if sp.semAcquired && sp.parent in s.semaphores then
      var sem := s.semaphores[sp.parent];
      s.(spawns := s.spawns[id := sp.(phase := phase, freed := sp.freed + 1)],
         semaphores := s.semaphores[sp.parent := sem.(used := sem.used - 1)])
    else Move(s, id, phase)
  }

  function Next(c: Config, s: Tree, step: Step): Tree
    requires Enabled(c, s, step)
  {
    match step
    case AddRoot(id, limit) =>
      s.(turns := s.turns[id := Turn(0, true, [])], active := s.active + {id},
         semaphores := if limit > 0 then s.semaphores[id := Semaphore(0, limit)] else s.semaphores)
    case Acquire(id, parent) =>
      if parent in s.semaphores then
        var sem := s.semaphores[parent];
        s.(spawns := s.spawns[id := Spawn(parent, true, Acquired, 0)],
           semaphores := s.semaphores[parent := sem.(used := sem.used + 1)])
      else s.(spawns := s.spawns[id := Spawn(parent, false, Acquired, 0)])
    case Reject(id) => Free(s, id, Gone)
    case Register(id) =>
      Move(s, id, Registered).(
        turns := s.turns[id := Turn(s.turns[s.spawns[id].parent].depth + 1, false, [])],
        semaphores := s.semaphores[id := Semaphore(0, c.maxConcurrent)], active := s.active + {id})
    case Link(id) =>
      var p := s.spawns[id].parent;
      Move(s, id, Running).(turns := s.turns[p := s.turns[p].(children := s.turns[p].children + [id])])
    case Release(id) => Free(s, id, Released)
    case Clear(id) => s.(active := s.active - {id})
    case Leave(id) => Move(s, id, Gone).(active := s.active - {id})
    case Panic(id) => Move(s, id, Panicked)
    case Unregister(id) => Move(s, id, Unregistered).(active := s.active - {id})
    case DeferredRelease(id) => Free(s, id, Gone)
  }

  predicate IsRun(c: Config, s: Tree, steps: seq<Step>)
    decreases |steps|
  {
    steps == [] || (Enabled(c, s, steps[0]) && IsRun(c, Next(c, s, steps[0]), steps[1..]))
  }

  function Run(c: Config, s: Tree, steps: seq<Step>): Tree
    requires IsRun(c, s, steps)
    decreases |steps|
  {
    if steps == [] then s else Run(c, Next(c, s, steps[0]), steps[1..])
  }

  // ----- The invariant -----

  /** Between acquire and release. */
  predicate HasSlot(sp: Spawn) {
    sp.semAcquired && !sp.phase.Released? && !sp.phase.Gone?
  }

  /** The spawns that hold a slot of `parent`. */
  function Holders(spawns: map<nat, Spawn>, parent: nat): set<nat> {
    set id | id in spawns && HasSlot(spawns[id]) && spawns[id].parent == parent
  }

  predicate TurnOk(c: Config, s: Tree, id: nat)
    requires id in s.turns
  {
    var t := s.turns[id];
    && t.depth <= c.maxDepth
    && forall k | 0 <= k < |t.children| ::
         t.children[k] in s.turns && !s.turns[t.children[k]].isRoot && s.turns[t.children[k]].depth == t.depth + 1
  }

  predicate SpawnOk(s: Tree, id: nat)
    requires id in s.spawns
  {
    var sp := s.spawns[id];
    && sp.parent in s.turns
    && (sp.semAcquired ==> sp.parent in s.semaphores)
    && sp.freed == (if sp.semAcquired && !HasSlot(sp) then 1 else 0)
    && (sp.phase.Acquired? ==> id !in s.turns)
    && (sp.phase.Registered? ==>
          id in s.turns && !s.turns[id].isRoot && s.turns[id].depth == s.turns[sp.parent].depth + 1)
  }

  predicate SemaphoreOk(s: Tree, id: nat)
    requires id in s.semaphores
  {
    s.semaphores[id].used == |Holders(s.spawns, id)| <= s.semaphores[id].capacity
  }

  ghost predicate Inv(c: Config, s: Tree) {
    && (forall id | id in s.turns :: TurnOk(c, s, id))
    && (forall id | id in s.spawns :: SpawnOk(s, id))
    && s.semaphores.Keys <= s.turns.Keys && s.active <= s.turns.Keys
    && (forall id | id in s.semaphores :: SemaphoreOk(s, id))
  }

  /** Replacing one spawn changes the holders of its parent by that spawn alone. */
  lemma HoldersUpdate(spawns: map<nat, Spawn>, id: nat, sp: Spawn, parent: nat)
    requires id in spawns ==> spawns[id].parent == sp.parent
    ensures var before, after := Holders(spawns, parent), Holders(spawns[id := sp], parent);
            && after - {id} == before - {id}
            && (id in after <==> HasSlot(sp) && sp.parent == parent)
            && |after| == |before| + (if id in after && id !in before then 1 else 0)
                                   - (if id !in after && id in before then 1 else 0)
  {
    var before, after := Holders(spawns, parent), Holders(spawns[id := sp], parent);
    OtherHoldersStay(spawns, id, sp, parent);
    CountWithout(before, id);
    CountWithout(after, id);
  }

  lemma OtherHoldersStay(spawns: map<nat, Spawn>, id: nat, sp: Spawn, parent: nat)
    ensures Holders(spawns[id := sp], parent) - {id} == Holders(spawns, parent) - {id}
    ensures id in Holders(spawns[id := sp], parent) <==> HasSlot(sp) && sp.parent == parent
  {
  }

  lemma CountWithout(xs: set<nat>, x: nat)
    ensures |xs - {x}| == |xs| - (if x in xs then 1 else 0)
  {
    if x in xs {
      assert xs == (xs - {x}) + {x};
    } else {
      assert xs - {x} == xs;
    }
  }

  lemma MoveKeepsInv(c: Config, s: Tree, id: nat, phase: Phase)
    requires Inv(c, s) && id in s.spawns
    requires HasSlot(s.spawns[id]) == HasSlot(s.spawns[id].(phase := phase))
    requires !phase.Acquired? && !phase.Registered?
    ensures Inv(c, Move(s, id, phase))
  {
    var s' := Move(s, id, phase);
    forall t | t in s'.turns ensures TurnOk(c, s', t) {
      assert TurnOk(c, s, t);
    }
    forall i | i in s'.spawns ensures SpawnOk(s', i) {
      assert SpawnOk(s, i);
    }
    forall p | p in s'.semaphores ensures SemaphoreOk(s', p) {
      assert SemaphoreOk(s, p);
      HoldersUpdate(s.spawns, id, s'.spawns[id], p);
    }
  }

  lemma FreeKeepsInv(c: Config, s: Tree, id: nat, phase: Phase)
    requires Inv(c, s) && id in s.spawns
    requires !s.spawns[id].phase.Released? && !s.spawns[id].phase.Gone?
    requires phase.Released? || phase.Gone?
    ensures Inv(c, Free(s, id, phase))
  {
    var s' := Free(s, id, phase);
    assert SpawnOk(s, id);
    forall t | t in s'.turns ensures TurnOk(c, s', t) {
      assert TurnOk(c, s, t);
    }
    forall i | i in s'.spawns ensures SpawnOk(s', i) {
      assert SpawnOk(s, i);
    }
    forall p | p in s'.semaphores ensures SemaphoreOk(s', p) {
      assert SemaphoreOk(s, p);
      HoldersUpdate(s.spawns, id, s'.spawns[id], p);
    }
  }

  lemma AcquireKeepsInv(c: Config, s: Tree, id: nat, parent: nat)
    requires Inv(c, s) && Enabled(c, s, Acquire(id, parent))
    ensures Inv(c, Next(c, s, Acquire(id, parent)))
  {
    var s' := Next(c, s, Acquire(id, parent));
    forall t | t in s'.turns ensures TurnOk(c, s', t) {
      assert TurnOk(c, s, t);
    }
    forall i | i in s'.spawns ensures SpawnOk(s', i) {
      if i != id { assert SpawnOk(s, i); }
    }
    forall p | p in s'.semaphores ensures SemaphoreOk(s', p) {
      assert SemaphoreOk(s, p);
      HoldersUpdate(s.spawns, id, s'.spawns[id], p);
    }
  }

  lemma NoHoldersYet(c: Config, s: Tree, id: nat)
    requires Inv(c, s) && id !in s.turns
    ensures Holders(s.spawns, id) == {}
  {
    forall i | i in s.spawns
      ensures s.spawns[i].parent != id
    {
      assert SpawnOk(s, i);
    }
  }

  lemma AddRootKeepsInv(c: Config, s: Tree, id: nat, limit: nat)
    requires Inv(c, s) && Enabled(c, s, AddRoot(id, limit))
    ensures Inv(c, Next(c, s, AddRoot(id, limit)))
  {
    var s' := Next(c, s, AddRoot(id, limit));
    NoHoldersYet(c, s, id);
    forall t | t in s'.turns ensures TurnOk(c, s', t) {
      if t != id { assert TurnOk(c, s, t); }
    }
    forall i | i in s'.spawns ensures SpawnOk(s', i) {
      assert SpawnOk(s, i);
    }
    forall p | p in s'.semaphores ensures SemaphoreOk(s', p) {
      if p != id { assert SemaphoreOk(s, p); }
    }
  }

  lemma RegisterKeepsInv(c: Config, s: Tree, id: nat)
    requires Inv(c, s) && Enabled(c, s, Register(id))
    ensures Inv(c, Next(c, s, Register(id)))
  {
    var s' := Next(c, s, Register(id));
    assert SpawnOk(s, id);
    NoHoldersYet(c, s, id);
    forall t | t in s'.turns ensures TurnOk(c, s', t) {
      if t != id { assert TurnOk(c, s, t); }
    }
    forall i | i in s'.spawns ensures SpawnOk(s', i) {
      assert SpawnOk(s, i);
    }
    forall p | p in s'.semaphores ensures SemaphoreOk(s', p) {
      HoldersUpdate(s.spawns, id, s'.spawns[id], p);
      if p != id { assert SemaphoreOk(s, p); }
    }
  }

  lemma LinkKeepsInv(c: Config, s: Tree, id: nat)
    requires Inv(c, s) && Enabled(c, s, Link(id))
    ensures Inv(c, Next(c, s, Link(id)))
  {
    var s' := Next(c, s, Link(id));
    assert SpawnOk(s, id);
    forall t | t in s'.turns ensures TurnOk(c, s', t) {
      assert TurnOk(c, s, t);
    }
    forall i | i in s'.spawns ensures SpawnOk(s', i) {
      assert SpawnOk(s, i);
    }
    forall p | p in s'.semaphores ensures SemaphoreOk(s', p) {
      HoldersUpdate(s.spawns, id, s'.spawns[id], p);
      assert SemaphoreOk(s, p);
    }
  }

  lemma InactiveKeepsInv(c: Config, s: Tree, id: nat)
    requires Inv(c, s)
    ensures Inv(c, s.(active := s.active - {id}))
  {
    var s' := s.(active := s.active - {id});
    forall t | t in s'.turns ensures TurnOk(c, s', t) {
      assert TurnOk(c, s, t);
    }
    forall i | i in s'.spawns ensures SpawnOk(s', i) {
      assert SpawnOk(s, i);
    }
    forall p | p in s'.semaphores ensures SemaphoreOk(s', p) {
      assert SemaphoreOk(s, p);
    }
  }

  lemma StepKeepsInv(c: Config, s: Tree, step: Step)
    requires Inv(c, s) && Enabled(c, s, step)
    ensures Inv(c, Next(c, s, step))
  {
    match step {
      case AddRoot(id, limit) => AddRootKeepsInv(c, s, id, limit);
      case Acquire(id, parent) => AcquireKeepsInv(c, s, id, parent);
      case Reject(id) => FreeKeepsInv(c, s, id, Gone);
      case Register(id) => RegisterKeepsInv(c, s, id);
      case Link(id) => LinkKeepsInv(c, s, id);
      case Release(id) => FreeKeepsInv(c, s, id, Released);
      case Clear(id) => InactiveKeepsInv(c, s, id);
      case Leave(id) =>
        MoveKeepsInv(c, s, id, Gone);
        InactiveKeepsInv(c, Move(s, id, Gone), id);
      case Panic(id) => MoveKeepsInv(c, s, id, Panicked);
      case Unregister(id) =>
        MoveKeepsInv(c, s, id, Unregistered);
        InactiveKeepsInv(c, Move(s, id, Unregistered), id);
      case DeferredRelease(id) => FreeKeepsInv(c, s, id, Gone);
    }
  }

  lemma {:induction false} RunKeepsInv(c: Config, s: Tree, steps: seq<Step>)
    requires Inv(c, s) && IsRun(c, s, steps)
    ensures Inv(c, Run(c, s, steps))
    decreases |steps|
  {
    if steps != [] {
      StepKeepsInv(c, s, steps[0]);
      RunKeepsInv(c, Next(c, s, steps[0]), steps[1..]);
    }
  }

  // ----- Limits over every interleaving -----

  /** No turn is deeper than the limit. */
  lemma DepthIsBounded(c: Config, steps: seq<Step>, id: nat)
    requires IsRun(c, EMPTY, steps)
    ensures var s := Run(c, EMPTY, steps); id in s.turns ==> s.turns[id].depth <= c.maxDepth
  {
    RunKeepsInv(c, EMPTY, steps);
    var s := Run(c, EMPTY, steps);
    if id in s.turns {
      assert TurnOk(c, s, id);
    }
  }

  /** The used slots of a turn are its spawns between acquire and release, within its capacity. */
  lemma SlotsAreHeldByChildren(c: Config, steps: seq<Step>, id: nat)
    requires IsRun(c, EMPTY, steps)
    ensures var s := Run(c, EMPTY, steps);
            id in s.semaphores ==> s.semaphores[id].used == |Holders(s.spawns, id)| <= s.semaphores[id].capacity
  {
    RunKeepsInv(c, EMPTY, steps);
    var s := Run(c, EMPTY, steps);
    if id in s.semaphores {
      assert SemaphoreOk(s, id);
    }
  }

  /** Whichever way a spawn returned - rejected, normally or by a panic - it freed its slot once. */
  lemma SlotIsFreedOnce(c: Config, steps: seq<Step>, id: nat)
    requires IsRun(c, EMPTY, steps)
    ensures var s := Run(c, EMPTY, steps);
            At(s, id, Gone) ==> s.spawns[id].freed == if s.spawns[id].semAcquired then 1 else 0
    ensures var s := Run(c, EMPTY, steps); id in s.spawns ==> s.spawns[id].freed <= 1
  {
    RunKeepsInv(c, EMPTY, steps);
    var s := Run(c, EMPTY, steps);
    if id in s.spawns {
      assert SpawnOk(s, id);
    }
  }

  // ----- The cascade of a hard abort -----

  /** The turns that `Finish(true)` on `id` finishes. */
  function Cascade(c: Config, s: Tree, id: nat): set<nat>
    requires id in s.turns && forall t | t in s.turns :: TurnOk(c, s, t)
    decreases c.maxDepth - s.turns[id].depth, |s.turns[id].children| + 1
  {
    assert TurnOk(c, s, id);
    if s.turns[id].isRoot then {id} else {id} + CascadeChildren(c, s, id, 0)
  }

  /** The cascade to the children of `id` from position `k` on. */
  function CascadeChildren(c: Config, s: Tree, id: nat, k: nat): set<nat>
    requires id in s.turns && forall t | t in s.turns :: TurnOk(c, s, t)
    requires k <= |s.turns[id].children|
    decreases c.maxDepth - s.turns[id].depth, |s.turns[id].children| - k
  {
    assert TurnOk(c, s, id);
    if k == |s.turns[id].children| then {}
    else
      var child := s.turns[id].children[k];
      assert TurnOk(c, s, child);
      (if child in s.active then Cascade(c, s, child) else {}) + CascadeChildren(c, s, id, k + 1)
  }

  /** The finished flags of the turns of a tree. */
  class FinishedFlags {
    var finished: set<nat>

    constructor ()
      ensures finished == {}
    {
      finished := {};
    }

    /** `Finish(true)`: ends, because children lie deeper, and finishes exactly the cascade. */
    method FinishHard(c: Config, s: Tree, id: nat)
      requires id in s.turns && forall t | t in s.turns :: TurnOk(c, s, t)
      modifies this
      ensures finished == old(finished) + Cascade(c, s, id)
      decreases c.maxDepth - s.turns[id].depth
    {
      assert TurnOk(c, s, id);
      finished := finished + {id};
      if s.turns[id].isRoot {
        return;
      }
      var children := s.turns[id].children;
      for k := 0 to |children|
        invariant finished + CascadeChildren(c, s, id, k) == old(finished) + Cascade(c, s, id)
      {
        var child := children[k];
        assert TurnOk(c, s, child);
        if child in s.active {
          FinishHard(c, s, child);
        }
      }
    }
  }

  /** A chain of child links from `path[0]` through registered turns. */
  predicate IsPath(s: Tree, path: seq<nat>) {
    path != [] &&
    (|path| > 1 ==>
      path[0] in s.turns && path[1] in s.turns[path[0]].children && path[1] in s.active && IsPath(s, path[1..]))
  }

  ghost predicate Reaches(s: Tree, from: nat, to: nat) {
    exists path :: IsPath(s, path) && path[0] == from && path[|path| - 1] == to
  }

  lemma {:induction false} PathIsFinished(c: Config, s: Tree, path: seq<nat>)
    requires forall t | t in s.turns :: TurnOk(c, s, t)
    requires IsPath(s, path) && path[0] in s.turns && !s.turns[path[0]].isRoot
    ensures path[|path| - 1] in Cascade(c, s, path[0])
    decreases |path|
  {
    if |path| > 1 {
      assert TurnOk(c, s, path[0]);
      var children := s.turns[path[0]].children;
      var k :| 0 <= k < |children| && children[k] == path[1];
      PathIsFinished(c, s, path[1..]);
      ChildIsIncluded(c, s, path[0], 0, k);
    }
  }

  lemma {:induction false} ChildIsIncluded(c: Config, s: Tree, id: nat, from: nat, k: nat)
    requires id in s.turns && forall t | t in s.turns :: TurnOk(c, s, t)
    requires from <= k < |s.turns[id].children|
    requires s.turns[id].children[k] in s.active
    ensures s.turns[id].children[k] in s.turns
    ensures Cascade(c, s, s.turns[id].children[k]) <= CascadeChildren(c, s, id, from)
    decreases k - from
  {
    assert TurnOk(c, s, id);
    if from < k {
      ChildIsIncluded(c, s, id, from + 1, k);
    }
  }

  lemma ReachesThrough(s: Tree, id: nat, child: nat, x: nat)
    requires id in s.turns && child in s.turns[id].children && child in s.active && Reaches(s, child, x)
    ensures Reaches(s, id, x)
  {
    var path :| IsPath(s, path) && path[0] == child && path[|path| - 1] == x;
    var longer := [id] + path;
    assert longer[1..] == path;
    assert IsPath(s, longer) && longer[|longer| - 1] == x;
  }

  lemma {:induction false} CascadeIsReached(c: Config, s: Tree, id: nat, x: nat)
    requires id in s.turns && forall t | t in s.turns :: TurnOk(c, s, t)
    requires x in Cascade(c, s, id)
    ensures Reaches(s, id, x)
    decreases c.maxDepth - s.turns[id].depth, |s.turns[id].children| + 1
  {
    assert TurnOk(c, s, id);
    if x == id {
      assert IsPath(s, [id]);
    } else {
      CascadeChildrenAreReached(c, s, id, 0, x);
    }
  }

  lemma {:induction false} CascadeChildrenAreReached(c: Config, s: Tree, id: nat, k: nat, x: nat)
    requires id in s.turns && forall t | t in s.turns :: TurnOk(c, s, t)
    requires k <= |s.turns[id].children| && x in CascadeChildren(c, s, id, k)
    ensures Reaches(s, id, x)
    decreases c.maxDepth - s.turns[id].depth, |s.turns[id].children| - k
  {
    assert TurnOk(c, s, id);
    var child := s.turns[id].children[k];
    assert TurnOk(c, s, child);
    if child in s.active && x in Cascade(c, s, child) {
      CascadeIsReached(c, s, child, x);
      ReachesThrough(s, id, child, x);
    } else {
      CascadeChildrenAreReached(c, s, id, k + 1, x);
    }
  }

  /**
   In every reachable tree: a hard abort of a sub-turn finishes exactly the turns reachable from it
   through registered turns; a hard abort of a root turn finishes that turn alone.
   */
  lemma HardAbortFinishesReachable(c: Config, steps: seq<Step>, id: nat, x: nat)
    requires IsRun(c, EMPTY, steps) && id in Run(c, EMPTY, steps).turns
    ensures var s := Run(c, EMPTY, steps);
            (forall t | t in s.turns :: TurnOk(c, s, t)) &&
            (x in Cascade(c, s, id) <==> if s.turns[id].isRoot then x == id else Reaches(s, id, x))
  {
    RunKeepsInv(c, EMPTY, steps);
    var s := Run(c, EMPTY, steps);
    if !s.turns[id].isRoot {
      if x in Cascade(c, s, id) {
        CascadeIsReached(c, s, id, x);
      }
      if Reaches(s, id, x) {
        var path :| IsPath(s, path) && path[0] == id && path[|path| - 1] == x;
        PathIsFinished(c, s, path);
      }
    }
  }
}
