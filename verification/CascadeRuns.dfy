/**
 The cascade of a hard abort (`Finish(true)` in `turn.go`) while sub-turns go on being spawned,
 linked and unregistered (`subturn.go`): whom it finishes, and that it ends.
 */
module CascadeRuns {
  import opened SpawnTree
  import opened Descent

  /** What a cascade still has to do, innermost call first. */
  datatype Task =
    | Visit(id: nat)      // look the child up among the active turns
    | Snapshot(id: nat)   // copy the child list of a turn that has just been finished

  /** `copied` holds the child lists that the cascade has copied. */
  datatype Cascading = Cascading(tree: Tree, finished: set<nat>, tasks: seq<Task>, copied: map<nat, seq<nat>>)

  /** A step of the tree, or of the cascade. */
  datatype Move = Spawning(step: Step) | Act

  function Begin(s: Tree, id: nat): Cascading {
    Cascading(s, {id}, [Snapshot(id)], map[])
  }

  function Visits(children: seq<nat>): (tasks: seq<Task>)
    ensures |tasks| == |children| && forall k | 0 <= k < |children| :: tasks[k] == Visit(children[k])
  {
    seq(|children|, k requires 0 <= k < |children| => Visit(children[k]))
  }

  predicate CanMove(c: Config, s: Cascading, move: Move) {
    match move
    case Spawning(step) => Enabled(c, s.tree, step)
    case Act => s.tasks != [] && (s.tasks[0].Snapshot? ==> s.tasks[0].id in s.tree.turns)
  }

  function Do(c: Config, s: Cascading, move: Move): Cascading
    requires CanMove(c, s, move)
  {
    match move
    case Spawning(step) => s.(tree := Next(c, s.tree, step))
    case Act =>
      var rest := s.tasks[1..];
      match s.tasks[0]
      case Visit(id) =>
        if id in s.tree.active then s.(finished := s.finished + {id}, tasks := [Snapshot(id)] + rest)
        else s.(tasks := rest)
      case Snapshot(id) =>
        if s.tree.turns[id].isRoot then s.(tasks := rest)
        else
          var children := s.tree.turns[id].children;
          s.(tasks := Visits(children) + rest, copied := s.copied[id := children])
  }

  predicate CanDo(c: Config, s: Cascading, moves: seq<Move>)
    decreases |moves|
  {
    moves == [] || (CanMove(c, s, moves[0]) && CanDo(c, Do(c, s, moves[0]), moves[1..]))
  }

  function DoAll(c: Config, s: Cascading, moves: seq<Move>): Cascading
    requires CanDo(c, s, moves)
    decreases |moves|
  {
    if moves == [] then s else DoAll(c, Do(c, s, moves[0]), moves[1..])
  }

  // ----- The tree only grows -----

  /** Turns stay, with their depth and kind, and gain children; turns that were active never return. */
  ghost predicate Grown(s: Tree, s': Tree) {
    forall id | id in s.turns ::
      && id in s'.turns && s'.turns[id].depth == s.turns[id].depth && s'.turns[id].isRoot == s.turns[id].isRoot
      && s.turns[id].children <= s'.turns[id].children
      && (id in s'.active ==> id in s.active)
  }

  lemma StepGrows(c: Config, s: Tree, step: Step)
    requires Inv(c, s) && Enabled(c, s, step)
    ensures Grown(s, Next(c, s, step))
  {
    if step.Register? {
      assert SpawnOk(s, step.id);
    }
  }

  // ----- Whom the cascade finishes -----

  /** A child that the cascade has visited, will visit, or found gone. */
  predicate Handled(s: Cascading, child: nat) {
    Visit(child) in s.tasks || child in s.finished || child !in s.tree.active
  }

  /** A copied list: the children linked by then, at least those at the start, and all of them handled. */
  predicate CopyOk(start: Tree, s: Cascading, id: nat)
    requires id in s.copied
  {
    && id in s.finished && id in s.tree.turns && s.copied[id] <= s.tree.turns[id].children
    && (id in start.turns ==> start.turns[id].children <= s.copied[id])
    && forall k | 0 <= k < |s.copied[id]| :: Handled(s, s.copied[id][k])
  }

  /** The child list of a finished sub-turn has been copied, or will be. */
  predicate FinishedOk(s: Cascading, id: nat) {
    id in s.tree.turns && (s.tree.turns[id].isRoot || Snapshot(id) in s.tasks || id in s.copied)
  }

  predicate TaskOk(s: Cascading, task: Task) {
    task.id in s.tree.turns && (task.Snapshot? ==> task.id in s.finished)
  }

  ghost predicate CascadeInv(c: Config, start: Tree, s: Cascading) {
    && Inv(c, start) && Inv(c, s.tree) && Grown(start, s.tree)
    && (forall k | 0 <= k < |s.tasks| :: TaskOk(s, s.tasks[k]))
    && (forall id | id in s.finished :: FinishedOk(s, id))
    && (forall id | id in s.copied :: CopyOk(start, s, id))
  }

  lemma GrownTransitive(a: Tree, b: Tree, c: Tree)
    requires Grown(a, b) && Grown(b, c)
    ensures Grown(a, c)
  {
  }

  lemma CopyOutlivesGrowth(c: Config, start: Tree, s: Cascading, s': Cascading, id: nat)
    requires Inv(c, s.tree) && Grown(s.tree, s'.tree) && s' == s.(tree := s'.tree)
    requires id in s.copied && CopyOk(start, s, id)
    ensures CopyOk(start, s', id)
  {
    assert TurnOk(c, s.tree, id);
    forall k | 0 <= k < |s.copied[id]|
      ensures Handled(s', s.copied[id][k])
    {
      assert s.copied[id][k] == s.tree.turns[id].children[k];
      assert Handled(s, s.copied[id][k]);
    }
  }

  lemma SpawningKeepsInv(c: Config, start: Tree, s: Cascading, step: Step)
    requires CascadeInv(c, start, s) && Enabled(c, s.tree, step)
    ensures CascadeInv(c, start, Do(c, s, Spawning(step)))
  {
    var s' := Do(c, s, Spawning(step));
    StepKeepsInv(c, s.tree, step);
    StepGrows(c, s.tree, step);
    GrownTransitive(start, s.tree, s'.tree);
    forall k | 0 <= k < |s'.tasks|
      ensures TaskOk(s', s'.tasks[k])
    {
      assert TaskOk(s, s.tasks[k]);
    }
    forall id | id in s'.finished
      ensures FinishedOk(s', id)
    {
      assert FinishedOk(s, id);
    }
    forall id | id in s'.copied
      ensures CopyOk(start, s', id)
    {
      CopyOutlivesGrowth(c, start, s, s', id);
    }
  }

  /** What a visit makes of the tasks and flags. */
  lemma Visited(c: Config, s: Cascading) returns (s': Cascading)
    requires CanMove(c, s, Act) && s.tasks[0].Visit?
    ensures s' == Do(c, s, Act) && s' == s.(finished := s'.finished, tasks := s'.tasks)
    ensures forall task :: task in s.tasks && task != s.tasks[0] ==> task in s'.tasks
    ensures s.finished <= s'.finished
    ensures s.tasks[0].id in s.tree.active ==> s.tasks[0].id in s'.finished && Snapshot(s.tasks[0].id) in s'.tasks
    ensures forall id :: id in s'.finished ==> id in s.finished || (id == s.tasks[0].id && id in s.tree.active)
    ensures forall task :: task in s'.tasks ==>
              task in s.tasks || (task == Snapshot(s.tasks[0].id) && task.id in s'.finished && task.id in s.tree.active)
  {
    s' := Do(c, s, Act);
    assert s.tasks == [s.tasks[0]] + s.tasks[1..];
  }

  lemma VisitKeepsInv(c: Config, start: Tree, s: Cascading)
    requires CascadeInv(c, start, s) && CanMove(c, s, Act) && s.tasks[0].Visit?
    ensures CascadeInv(c, start, Do(c, s, Act))
  {
    var s' := Visited(c, s);
    forall k | 0 <= k < |s'.tasks|
      ensures TaskOk(s', s'.tasks[k])
    {
      assert s'.tasks[k] in s'.tasks;
      assert s'.tasks[k] in s.tasks ==> TaskOk(s, s'.tasks[k]);
    }
    forall id | id in s'.finished
      ensures FinishedOk(s', id)
    {
      assert id in s.finished ==> FinishedOk(s, id);
    }
    forall id | id in s'.copied
      ensures CopyOk(start, s', id)
    {
      assert CopyOk(start, s, id);
      assert forall k | 0 <= k < |s.copied[id]| :: Handled(s, s.copied[id][k]) ==> Handled(s', s.copied[id][k]);
    }
  }

  /** What copying a child list makes of the tasks; a root turn copies nothing. */
  lemma Copied(c: Config, s: Cascading) returns (s': Cascading)
    requires CanMove(c, s, Act) && s.tasks[0].Snapshot?
    ensures s' == Do(c, s, Act) && s' == s.(tasks := s'.tasks, copied := s'.copied)
    ensures forall task :: task in s.tasks && task != s.tasks[0] ==> task in s'.tasks
    ensures var id := s.tasks[0].id;
            var children := s.tree.turns[id].children;
            && s'.copied == (if s.tree.turns[id].isRoot then s.copied else s.copied[id := children])
            && (!s.tree.turns[id].isRoot ==> forall k | 0 <= k < |children| :: Visit(children[k]) in s'.tasks)
            && forall task :: task in s'.tasks ==>
                 task in s.tasks || (task.Visit? && task.id in children && id in s'.copied && s'.copied[id] == children)
  {
    s' := Do(c, s, Act);
    var children := s.tree.turns[s.tasks[0].id].children;
    assert s.tasks == [s.tasks[0]] + s.tasks[1..];
    if !s.tree.turns[s.tasks[0].id].isRoot {
      forall k | 0 <= k < |children|
        ensures Visit(children[k]) in s'.tasks
      {
        assert s'.tasks[k] == Visit(children[k]);
      }
    }
  }

  lemma SnapshotKeepsCopy(start: Tree, s: Cascading, s': Cascading, id: nat)
    requires s'.tree == s.tree && s'.finished == s.finished
    requires forall task :: task in s.tasks && task.Visit? ==> task in s'.tasks
    requires id in s.copied && id in s'.copied && s'.copied[id] == s.copied[id] && CopyOk(start, s, id)
    ensures CopyOk(start, s', id)
  {
    assert forall k | 0 <= k < |s.copied[id]| :: Handled(s, s.copied[id][k]) ==> Handled(s', s.copied[id][k]);
  }

  lemma SnapshotKeepsInv(c: Config, start: Tree, s: Cascading)
    requires CascadeInv(c, start, s) && CanMove(c, s, Act) && s.tasks[0].Snapshot?
    ensures CascadeInv(c, start, Do(c, s, Act))
  {
    var s' := Copied(c, s);
    var head := s.tasks[0].id;
    assert TaskOk(s, s.tasks[0]) && TurnOk(c, s.tree, head);
    forall k | 0 <= k < |s'.tasks|
      ensures TaskOk(s', s'.tasks[k])
    {
      assert s'.tasks[k] in s'.tasks;
      assert s'.tasks[k] in s.tasks ==> TaskOk(s, s'.tasks[k]);
    }
    forall id | id in s'.finished
      ensures FinishedOk(s', id)
    {
      assert FinishedOk(s, id);
    }
    forall id | id in s'.copied
      ensures CopyOk(start, s', id)
    {
      if id != head || s.tree.turns[head].isRoot {
        SnapshotKeepsCopy(start, s, s', id);
      }
    }
  }

  lemma ActKeepsInv(c: Config, start: Tree, s: Cascading)
    requires CascadeInv(c, start, s) && CanMove(c, s, Act)
    ensures CascadeInv(c, start, Do(c, s, Act))
  {
    if s.tasks[0].Visit? {
      VisitKeepsInv(c, start, s);
    } else {
      SnapshotKeepsInv(c, start, s);
    }
  }

  lemma {:induction false} MovesKeepInv(c: Config, start: Tree, s: Cascading, moves: seq<Move>)
    requires CascadeInv(c, start, s) && CanDo(c, s, moves)
    ensures CascadeInv(c, start, DoAll(c, s, moves)) && s.finished <= DoAll(c, s, moves).finished
    decreases |moves|
  {
    if moves != [] {
      match moves[0] {
        case Spawning(step) => SpawningKeepsInv(c, start, s, step);
        case Act => ActKeepsInv(c, start, s);
      }
      MovesKeepInv(c, start, Do(c, s, moves[0]), moves[1..]);
    }
  }

  /** A chain of child links. */
  predicate IsChain(s: Tree, path: seq<nat>) {
    path != [] &&
    (|path| > 1 ==> path[0] in s.turns && path[1] in s.turns[path[0]].children && IsChain(s, path[1..]))
  }

  /** Each turn of the path is in the list that was copied for the one before it. */
  predicate LinksCopied(s: Cascading, path: seq<nat>) {
    forall k | 0 <= k < |path| - 1 :: LinkCopied(s, path, k)
  }

  predicate LinkCopied(s: Cascading, path: seq<nat>, k: nat)
    requires k < |path| - 1
  {
    path[k] in s.copied && path[k + 1] in s.copied[path[k]]
  }

  lemma {:induction false} CopiedChainIsFinished(c: Config, start: Tree, s: Cascading, path: seq<nat>)
    requires CascadeInv(c, start, s) && s.tasks == [] && path != [] && path[0] in s.finished
    requires LinksCopied(s, path) && forall k | 1 <= k < |path| :: path[k] in s.tree.active
    ensures path[|path| - 1] in s.finished
    decreases |path|
  {
    if |path| > 1 {
      assert LinkCopied(s, path, 0);
      assert CopyOk(start, s, path[0]);
      var k :| 0 <= k < |s.copied[path[0]]| && s.copied[path[0]][k] == path[1];
      assert Handled(s, s.copied[path[0]][k]);
      LinksCopiedTail(s, path);
      CopiedChainIsFinished(c, start, s, path[1..]);
    }
  }

  lemma LinksCopiedTail(s: Cascading, path: seq<nat>)
    requires LinksCopied(s, path) && |path| > 1
    ensures LinksCopied(s, path[1..])
  {
    forall k | 0 <= k < |path| - 2
      ensures LinkCopied(s, path[1..], k)
    {
      assert LinkCopied(s, path, k + 1);
    }
  }

  /** Links made before the cascade began are copied. */
  lemma {:induction false} OldChainIsCopied(c: Config, start: Tree, s: Cascading, path: seq<nat>)
    requires CascadeInv(c, start, s) && s.tasks == []
    requires IsChain(start, path) && path[0] in s.finished && path[0] in start.turns && !start.turns[path[0]].isRoot
    requires forall k | 1 <= k < |path| :: path[k] in s.tree.active
    ensures path[|path| - 1] in s.finished
    decreases |path|
  {
    if |path| > 1 {
      assert FinishedOk(s, path[0]) && CopyOk(start, s, path[0]) && TurnOk(c, start, path[0]);
      var k :| 0 <= k < |start.turns[path[0]].children| && start.turns[path[0]].children[k] == path[1];
      assert s.copied[path[0]][k] == path[1];
      assert Handled(s, s.copied[path[0]][k]);
      OldChainIsCopied(c, start, s, path[1..]);
    }
  }

  /**
   However spawns, links and exits of sub-turns interleave with it: when the cascade of a sub-turn is
   through, it has finished every turn that hung below that sub-turn, by links made before the
   cascade began, and is still registered together with all turns in between.
   */
  lemma CascadeReachesDescendants(c: Config, steps: seq<Step>, id: nat, moves: seq<Move>, path: seq<nat>)
    requires IsRun(c, EMPTY, steps)
    requires var start := Run(c, EMPTY, steps);
             && id in start.turns && !start.turns[id].isRoot && CanDo(c, Begin(start, id), moves)
             && DoAll(c, Begin(start, id), moves).tasks == []
             && IsChain(start, path) && path[0] == id
             && forall k | 1 <= k < |path| :: path[k] in DoAll(c, Begin(start, id), moves).tree.active
    ensures path[|path| - 1] in DoAll(c, Begin(Run(c, EMPTY, steps), id), moves).finished
  {
    RunKeepsInv(c, EMPTY, steps);
    var start := Run(c, EMPTY, steps);
    MovesKeepInv(c, start, Begin(start, id), moves);
    OldChainIsCopied(c, start, DoAll(c, Begin(start, id), moves), path);
  }

  // ----- Exactly whom -----

  /** A child is in the list of one parent only: that of its spawn. */
  ghost predicate ParentsOk(s: Tree) {
    forall p, child | p in s.turns && child in s.turns[p].children :: child in s.spawns && s.spawns[child].parent == p
  }

  lemma StepKeepsParents(c: Config, s: Tree, step: Step)
    requires ParentsOk(s) && Enabled(c, s, step)
    ensures ParentsOk(Next(c, s, step))
  {
  }

  lemma {:induction false} RunKeepsParents(c: Config, s: Tree, steps: seq<Step>)
    requires ParentsOk(s) && IsRun(c, s, steps)
    ensures ParentsOk(Run(c, s, steps))
    decreases |steps|
  {
    if steps != [] {
      StepKeepsParents(c, s, steps[0]);
      RunKeepsParents(c, Next(c, s, steps[0]), steps[1..]);
    }
  }

  lemma OneParent(s: Tree, p: nat, q: nat, child: nat)
    requires ParentsOk(s) && p in s.turns && q in s.turns
    requires child in s.turns[p].children && child in s.turns[q].children
    ensures p == q
  {
    assert s.spawns[child].parent == p;
    assert s.spawns[child].parent == q;
  }

  predicate IsCopied(s: Cascading, x: nat) {
    exists p :: p in s.copied && x in s.copied[p]
  }

  predicate WasCopied(root: nat, s: Cascading, x: nat) {
    x in s.finished && x != root ==> IsCopied(s, x)
  }

  /** Besides the root of the cascade, only copied turns are visited and finished. */
  ghost predicate FromCopies(root: nat, s: Cascading) {
    (forall x :: WasCopied(root, s, x)) &&
    (forall k | 0 <= k < |s.tasks| && s.tasks[k].Visit? :: IsCopied(s, s.tasks[k].id))
  }

  lemma VisitKeepsCopies(c: Config, root: nat, s: Cascading)
    requires FromCopies(root, s) && CanMove(c, s, Act) && s.tasks[0].Visit?
    ensures FromCopies(root, Do(c, s, Act))
  {
    var s' := Visited(c, s);
    var head := s.tasks[0];
    assert IsCopied(s, head.id);
    forall x
      ensures WasCopied(root, s', x)
    {
      assert WasCopied(root, s, x);
    }
    forall k | 0 <= k < |s'.tasks| && s'.tasks[k].Visit?
      ensures IsCopied(s', s'.tasks[k].id)
    {
      assert s'.tasks[k] in s'.tasks;
      var i :| 0 <= i < |s.tasks| && s.tasks[i] == s'.tasks[k];
    }
  }

  lemma CopyingKeepsCopied(s: Cascading, s': Cascading, id: nat, x: nat)
    requires s'.copied == s.copied || (id in s'.copied && s'.copied == s.copied[id := s'.copied[id]])
    requires id in s.copied && id in s'.copied ==> s.copied[id] <= s'.copied[id]
    requires IsCopied(s, x)
    ensures IsCopied(s', x)
  {
    var p :| p in s.copied && x in s.copied[p];
    assert x in s'.copied[p];
  }

  lemma SnapshotKeepsCopies(c: Config, start: Tree, root: nat, s: Cascading)
    requires CascadeInv(c, start, s) && FromCopies(root, s) && CanMove(c, s, Act) && s.tasks[0].Snapshot?
    ensures FromCopies(root, Do(c, s, Act))
  {
    var s' := Copied(c, s);
    var head := s.tasks[0].id;
    assert head in s.copied ==> CopyOk(start, s, head);
    forall x
      ensures WasCopied(root, s', x)
    {
      if x in s'.finished && x != root {
        assert WasCopied(root, s, x);
        CopyingKeepsCopied(s, s', head, x);
      }
    }
    forall k | 0 <= k < |s'.tasks| && s'.tasks[k].Visit?
      ensures IsCopied(s', s'.tasks[k].id)
    {
      assert s'.tasks[k] in s'.tasks;
      if s'.tasks[k] in s.tasks {
        var i :| 0 <= i < |s.tasks| && s.tasks[i] == s'.tasks[k];
        CopyingKeepsCopied(s, s', head, s.tasks[i].id);
      }
    }
  }

  lemma {:induction false} MovesKeepCopies(c: Config, start: Tree, root: nat, s: Cascading, moves: seq<Move>)
    requires CascadeInv(c, start, s) && FromCopies(root, s) && ParentsOk(s.tree) && CanDo(c, s, moves)
    ensures FromCopies(root, DoAll(c, s, moves)) && ParentsOk(DoAll(c, s, moves).tree)
    decreases |moves|
  {
    if moves != [] {
      match moves[0] {
        case Spawning(step) =>
          StepKeepsParents(c, s.tree, step);
          SpawningKeepsCopies(c, root, s, step);
          SpawningKeepsInv(c, start, s, step);
        case Act =>
          if s.tasks[0].Visit? {
            VisitKeepsCopies(c, root, s);
          } else {
            SnapshotKeepsCopies(c, start, root, s);
          }
          ActKeepsInv(c, start, s);
      }
      MovesKeepCopies(c, start, root, Do(c, s, moves[0]), moves[1..]);
    }
  }

  lemma SpawningKeepsCopies(c: Config, root: nat, s: Cascading, step: Step)
    requires FromCopies(root, s) && Enabled(c, s.tree, step)
    ensures FromCopies(root, Do(c, s, Spawning(step)))
  {
    var s' := Do(c, s, Spawning(step));
    forall x
      ensures WasCopied(root, s', x)
    {
      assert WasCopied(root, s, x);
    }
  }

  /** The turns of a chain lie one deeper each. */
  lemma {:induction false} ChainAt(c: Config, s: Tree, path: seq<nat>, k: nat)
    requires Inv(c, s) && IsChain(s, path) && path[0] in s.turns && k < |path|
    ensures path[k] in s.turns && s.turns[path[k]].depth == s.turns[path[0]].depth + k
    ensures k + 1 < |path| ==> path[k + 1] in s.turns[path[k]].children
    decreases |path|
  {
    assert TurnOk(c, s, path[0]);
    if k > 0 {
      assert path[1..][k - 1] == path[k];
      ChainAt(c, s, path[1..], k - 1);
      assert k + 1 < |path| ==> path[1..][k] == path[k + 1];
    }
  }

  /** Every copied list belongs to a finished turn, whose first children it holds. */
  predicate CopiesArePrefixes(s: Cascading) {
    forall p | p in s.copied :: p in s.finished && p in s.tree.turns && s.copied[p] <= s.tree.turns[p].children
  }

  /** A copied turn was copied in the list of its parent. */
  lemma CopiedWithParent(s: Cascading, parent: nat, x: nat)
    requires CopiesArePrefixes(s) && ParentsOk(s.tree) && IsCopied(s, x)
    requires parent in s.tree.turns && x in s.tree.turns[parent].children
    ensures parent in s.finished && parent in s.copied && x in s.copied[parent]
  {
    var p :| p in s.copied && x in s.copied[p];
    assert x in s.tree.turns[p].children;
    OneParent(s.tree, p, parent, x);
  }

  lemma {:induction false} FinishedChainWasCopied(c: Config, s: Cascading, path: seq<nat>, n: nat)
    requires CopiesArePrefixes(s) && ParentsOk(s.tree) && Inv(c, s.tree) && path != [] && FromCopies(path[0], s)
    requires IsChain(s.tree, path) && path[0] in s.tree.turns && n < |path| && path[n] in s.finished
    ensures forall k | 0 <= k < n :: LinkCopied(s, path, k)
    decreases n
  {
    if n > 0 {
      var parent := ParentOnChain(c, s.tree, path, n - 1);
      assert WasCopied(path[0], s, path[n]);
      CopiedWithParent(s, parent, path[n]);
      FinishedChainWasCopied(c, s, path, n - 1);
    }
  }

  /** On a chain, a turn comes after its parent, and is not the first one. */
  lemma ParentOnChain(c: Config, s: Tree, path: seq<nat>, k: nat) returns (parent: nat)
    requires Inv(c, s) && IsChain(s, path) && path[0] in s.turns && k + 1 < |path|
    ensures parent == path[k] && parent in s.turns && path[k + 1] in s.turns[parent].children && path[k + 1] != path[0]
  {
    parent := path[k];
    ChainAt(c, s, path, k);
    ChainAt(c, s, path, k + 1);
  }

  /** Once a cascade is through, these facts decide whom it has finished. */
  ghost predicate Through(c: Config, start: Tree, root: nat, s: Cascading) {
    && CascadeInv(c, start, s) && CopiesArePrefixes(s) && ParentsOk(s.tree) && FromCopies(root, s)
    && root in s.finished && root in s.tree.turns && s.tasks == []
  }

  lemma CascadeIsThrough(c: Config, steps: seq<Step>, id: nat, moves: seq<Move>) returns (start: Tree, s: Cascading)
    requires IsRun(c, EMPTY, steps)
    requires id in Run(c, EMPTY, steps).turns && CanDo(c, Begin(Run(c, EMPTY, steps), id), moves)
    requires DoAll(c, Begin(Run(c, EMPTY, steps), id), moves).tasks == []
    ensures start == Run(c, EMPTY, steps) && s == DoAll(c, Begin(start, id), moves) && Through(c, start, id, s)
  {
    RunKeepsInv(c, EMPTY, steps);
    RunKeepsParents(c, EMPTY, steps);
    start := Run(c, EMPTY, steps);
    s := DoAll(c, Begin(start, id), moves);
    MovesKeepInv(c, start, Begin(start, id), moves);
    MovesKeepCopies(c, start, id, Begin(start, id), moves);
    assert FinishedOk(s, id);
    forall p | p in s.copied
      ensures p in s.finished && p in s.tree.turns && s.copied[p] <= s.tree.turns[p].children
    {
      assert CopyOk(start, s, p);
    }
  }

  /**
   In every run, with any spawns, links and exits before and during the cascade of a turn: of the
   turns on a chain of registered turns below it, the last one is finished if and only if each link
   was made before its parent's child list was copied.
   */
  lemma FinishedIffCopied(c: Config, steps: seq<Step>, id: nat, moves: seq<Move>, path: seq<nat>)
    requires IsRun(c, EMPTY, steps)
    requires id in Run(c, EMPTY, steps).turns && CanDo(c, Begin(Run(c, EMPTY, steps), id), moves)
    requires var s := DoAll(c, Begin(Run(c, EMPTY, steps), id), moves);
             && s.tasks == [] && IsChain(s.tree, path) && path[0] == id
             && forall k | 1 <= k < |path| :: path[k] in s.tree.active
    ensures var s := DoAll(c, Begin(Run(c, EMPTY, steps), id), moves);
            (path[|path| - 1] in s.finished <==> LinksCopied(s, path)) && CopiesArePrefixes(s)
  {
    var start, s := CascadeIsThrough(c, steps, id, moves);
    if path[|path| - 1] in s.finished {
      FinishedChainWasCopied(c, s, path, |path| - 1);
    }
    if LinksCopied(s, path) {
      CopiedChainIsFinished(c, start, s, path);
    }
  }

  // ----- A child that escapes, and one that does not -----

  lemma RunOne(c: Config, s: Tree, step: Step, rest: seq<Step>)
    requires Enabled(c, s, step) && IsRun(c, Next(c, s, step), rest)
    ensures IsRun(c, s, [step] + rest) && Run(c, s, [step] + rest) == Run(c, Next(c, s, step), rest)
  {
    assert ([step] + rest)[1..] == rest;
  }

  lemma DoOne(c: Config, s: Cascading, move: Move, rest: seq<Move>)
    requires CanMove(c, s, move) && CanDo(c, Do(c, s, move), rest)
    ensures CanDo(c, s, [move] + rest) && DoAll(c, s, [move] + rest) == DoAll(c, Do(c, s, move), rest)
  {
    assert ([move] + rest)[1..] == rest;
  }

  const LIMITS := Config(3, 5)

  /** A root turn 0 has a running sub-turn 1. */
  const ONE_CHILD := Tree(
    map[0 := Turn(0, true, [1]), 1 := Turn(1, false, [])], map[1 := Spawn(0, true, Running, 0)],
    map[0 := Semaphore(1, 5), 1 := Semaphore(0, 5)], {0, 1})

  /** Sub-turn 1 has registered a sub-turn 2 of its own, but not linked it. */
  const UNLINKED := Tree(
    map[0 := Turn(0, true, [1]), 1 := Turn(1, false, []), 2 := Turn(2, false, [])],
    map[1 := Spawn(0, true, Running, 0), 2 := Spawn(1, true, Registered, 0)],
    map[0 := Semaphore(1, 5), 1 := Semaphore(1, 5), 2 := Semaphore(0, 5)], {0, 1, 2})

  lemma OneChildIsReached(rest: seq<Step>)
    requires IsRun(LIMITS, ONE_CHILD, rest)
    ensures var steps := [AddRoot(0, 5)] + ([Acquire(1, 0)] + ([Register(1)] + ([Link(1)] + rest)));
            IsRun(LIMITS, EMPTY, steps) && Run(LIMITS, EMPTY, steps) == Run(LIMITS, ONE_CHILD, rest)
  {
    var s1 := Next(LIMITS, EMPTY, AddRoot(0, 5));
    var s2 := Next(LIMITS, s1, Acquire(1, 0));
    var s3 := Next(LIMITS, s2, Register(1));
    assert [] + [1] == [1];
    assert {} + {0} + {1} == {0, 1};
    assert Next(LIMITS, s3, Link(1)) == ONE_CHILD;
    RunOne(LIMITS, s3, Link(1), rest);
    RunOne(LIMITS, s2, Register(1), [Link(1)] + rest);
    RunOne(LIMITS, s1, Acquire(1, 0), [Register(1)] + ([Link(1)] + rest));
    RunOne(LIMITS, EMPTY, AddRoot(0, 5), [Acquire(1, 0)] + ([Register(1)] + ([Link(1)] + rest)));
  }

  lemma UnlinkedIsReached() returns (steps: seq<Step>)
    ensures IsRun(LIMITS, EMPTY, steps) && Run(LIMITS, EMPTY, steps) == UNLINKED
  {
    var s1 := Next(LIMITS, ONE_CHILD, Acquire(2, 1));
    assert {0, 1} + {2} == {0, 1, 2};
    assert Next(LIMITS, s1, Register(2)) == UNLINKED;
    RunOne(LIMITS, s1, Register(2), []);
    RunOne(LIMITS, ONE_CHILD, Acquire(2, 1), [Register(2)]);
    OneChildIsReached([Acquire(2, 1)] + [Register(2)]);
    steps := [AddRoot(0, 5)] + ([Acquire(1, 0)] + ([Register(1)] + ([Link(1)] + ([Acquire(2, 1)] + [Register(2)]))));
  }

  /**
   From an empty tree: a hard abort of sub-turn 1, whose sub-turn 2 is registered already. When 2 is
   linked after the child list of 1 has been copied, the cascade ends without finishing it; when it
   is linked before, but after the cascade began, it is finished.
   */
  lemma LateChildEscapes() returns (steps: seq<Step>)
    ensures IsRun(LIMITS, EMPTY, steps) && Run(LIMITS, EMPTY, steps) == UNLINKED
    ensures var late := [Act] + [Spawning(Link(2))];
            CanDo(LIMITS, Begin(UNLINKED, 1), late) &&
            var s := DoAll(LIMITS, Begin(UNLINKED, 1), late);
            s.tasks == [] && 1 in s.tree.turns && s.tree.turns[1].children == [2] && 2 in s.tree.active && 2 !in s.finished
    ensures var early := [Spawning(Link(2))] + ([Act] + ([Act] + [Act]));
            CanDo(LIMITS, Begin(UNLINKED, 1), early) &&
            var s := DoAll(LIMITS, Begin(UNLINKED, 1), early); s.tasks == [] && 2 in s.finished
  {
    steps := UnlinkedIsReached();
    LinkedLate();
    LinkedEarly();
  }

  lemma LinkedLate()
    ensures var late := [Act] + [Spawning(Link(2))];
            CanDo(LIMITS, Begin(UNLINKED, 1), late) &&
            var s := DoAll(LIMITS, Begin(UNLINKED, 1), late);
            s.tasks == [] && 1 in s.tree.turns && s.tree.turns[1].children == [2] && 2 in s.tree.active && 2 !in s.finished
  {
    var s := Begin(UNLINKED, 1);
    assert Visits([]) + [] == [];
    assert [] + [2] == [2];
    DoOne(LIMITS, Do(LIMITS, s, Act), Spawning(Link(2)), []);
    DoOne(LIMITS, s, Act, [Spawning(Link(2))]);
  }

  lemma LinkedEarly()
    ensures var early := [Spawning(Link(2))] + ([Act] + ([Act] + [Act]));
            CanDo(LIMITS, Begin(UNLINKED, 1), early) &&
            var s := DoAll(LIMITS, Begin(UNLINKED, 1), early); s.tasks == [] && 2 in s.finished
  {
    var s := Begin(UNLINKED, 1);
    assert [] + [2] == [2];
    var s1 := Do(LIMITS, s, Spawning(Link(2)));
    var s2 := Do(LIMITS, s1, Act);
    assert s2.tasks == Visits([2]) + [] == [Visit(2)];
    var s3 := Do(LIMITS, s2, Act);
    assert s3.tasks == [Snapshot(2)] + [] == [Snapshot(2)];
    assert Visits([]) + [] == [];
    DoOne(LIMITS, s3, Act, []);
    DoOne(LIMITS, s2, Act, [Act]);
    DoOne(LIMITS, s1, Act, [Act] + [Act]);
    DoOne(LIMITS, s, Spawning(Link(2)), [Act] + ([Act] + [Act]));
  }

  // ----- It finishes nobody else -----

  ghost predicate Descends(s: Tree, from: nat, to: nat) {
    exists path :: IsChain(s, path) && path[0] == from && path[|path| - 1] == to
  }

  lemma {:induction false} ChainOutlivesGrowth(s: Tree, s': Tree, path: seq<nat>)
    requires Grown(s, s') && IsChain(s, path)
    ensures IsChain(s', path)
    decreases |path|
  {
    if |path| > 1 {
      ChainOutlivesGrowth(s, s', path[1..]);
    }
  }

  lemma {:induction false} ChainAppend(s: Tree, path: seq<nat>, child: nat)
    requires IsChain(s, path) && path[|path| - 1] in s.turns && child in s.turns[path[|path| - 1]].children
    ensures IsChain(s, path + [child])
    decreases |path|
  {
    if |path| == 1 {
      assert (path + [child])[1..] == [child];
    } else {
      ChainAppend(s, path[1..], child);
      assert (path + [child])[1..] == path[1..] + [child];
    }
  }

  lemma ChildDescends(s: Tree, root: nat, id: nat, child: nat)
    requires Descends(s, root, id) && id in s.turns && child in s.turns[id].children
    ensures Descends(s, root, child)
  {
    var path :| IsChain(s, path) && path[0] == root && path[|path| - 1] == id;
    ChainAppend(s, path, child);
    assert (path + [child])[|path + [child]| - 1] == child && (path + [child])[0] == root;
  }

  ghost predicate AllDescend(root: nat, s: Cascading) {
    (forall id | id in s.finished :: Descends(s.tree, root, id)) &&
    (forall k | 0 <= k < |s.tasks| :: Descends(s.tree, root, s.tasks[k].id))
  }

  lemma DescendsOutlivesGrowth(s: Tree, s': Tree, from: nat, to: nat)
    requires Grown(s, s') && Descends(s, from, to)
    ensures Descends(s', from, to)
  {
    var path :| IsChain(s, path) && path[0] == from && path[|path| - 1] == to;
    ChainOutlivesGrowth(s, s', path);
  }

  lemma SpawningKeepsDescent(c: Config, root: nat, s: Cascading, step: Step)
    requires Inv(c, s.tree) && Enabled(c, s.tree, step) && AllDescend(root, s)
    ensures AllDescend(root, Do(c, s, Spawning(step)))
  {
    var s' := Do(c, s, Spawning(step));
    StepGrows(c, s.tree, step);
    forall id | id in s'.finished
      ensures Descends(s'.tree, root, id)
    {
      DescendsOutlivesGrowth(s.tree, s'.tree, root, id);
    }
    forall k | 0 <= k < |s'.tasks|
      ensures Descends(s'.tree, root, s'.tasks[k].id)
    {
      DescendsOutlivesGrowth(s.tree, s'.tree, root, s.tasks[k].id);
    }
  }

  lemma ActKeepsDescent(c: Config, root: nat, s: Cascading)
    requires CanMove(c, s, Act) && AllDescend(root, s)
    ensures AllDescend(root, Do(c, s, Act))
  {
    var s', head := Do(c, s, Act), s.tasks[0].id;
    forall k | 0 <= k < |s'.tasks|
      ensures Descends(s'.tree, root, s'.tasks[k].id)
    {
      var added := |s'.tasks| - |s.tasks[1..]|;
      if k >= added {
        assert s'.tasks[k] == s.tasks[1..][k - added] == s.tasks[k - added + 1];
      } else if s.tasks[0].Snapshot? {
        ChildDescends(s.tree, root, head, s.tree.turns[head].children[k]);
      }
    }
  }

  lemma {:induction false} MovesKeepDescent(c: Config, start: Tree, root: nat, s: Cascading, moves: seq<Move>)
    requires CascadeInv(c, start, s) && AllDescend(root, s) && CanDo(c, s, moves)
    ensures AllDescend(root, DoAll(c, s, moves))
    decreases |moves|
  {
    if moves != [] {
      match moves[0] {
        case Spawning(step) =>
          SpawningKeepsDescent(c, root, s, step);
          SpawningKeepsInv(c, start, s, step);
        case Act =>
          ActKeepsDescent(c, root, s);
          ActKeepsInv(c, start, s);
      }
      MovesKeepDescent(c, start, root, Do(c, s, moves[0]), moves[1..]);
    }
  }

  /** At any time the cascade has finished descendants of its sub-turn only. */
  lemma CascadeStaysBelow(c: Config, steps: seq<Step>, id: nat, moves: seq<Move>, x: nat)
    requires IsRun(c, EMPTY, steps)
    requires id in Run(c, EMPTY, steps).turns && CanDo(c, Begin(Run(c, EMPTY, steps), id), moves)
    requires x in DoAll(c, Begin(Run(c, EMPTY, steps), id), moves).finished
    ensures Descends(DoAll(c, Begin(Run(c, EMPTY, steps), id), moves).tree, id, x)
  {
    RunKeepsInv(c, EMPTY, steps);
    var start := Run(c, EMPTY, steps);
    assert IsChain(start, [id]) && [id][0] == id && [id][|[id]| - 1] == id;
    MovesKeepInv(c, start, Begin(start, id), []);
    MovesKeepDescent(c, start, id, Begin(start, id), moves);
  }

  // ----- It ends -----

  function DepthOf(s: Tree, task: Task): nat {
    if task.id in s.turns then s.turns[task.id].depth else 0
  }

  /** The work left at one depth: a visit counts twice, a snapshot once. */
  function Load(s: Tree, tasks: seq<Task>, depth: nat): nat {
    if tasks == [] then 0
    else (if DepthOf(s, tasks[0]) != depth then 0 else if tasks[0].Visit? then 2 else 1) + Load(s, tasks[1..], depth)
  }

  function Loads(c: Config, s: Cascading): (loads: seq<nat>)
    ensures |loads| == c.maxDepth + 1
  {
    seq(c.maxDepth + 1, depth requires 0 <= depth <= c.maxDepth => Load(s.tree, s.tasks, depth))
  }

  lemma {:induction false} LoadConcat(s: Tree, a: seq<Task>, b: seq<Task>, depth: nat)
    ensures Load(s, a + b, depth) == Load(s, a, depth) + Load(s, b, depth)
  {
    if a == [] {
      assert a + b == b;
    } else {
      assert (a + b)[1..] == a[1..] + b;
      LoadConcat(s, a[1..], b, depth);
    }
  }

  lemma {:induction false} LoadElsewhere(s: Tree, tasks: seq<Task>, depth: nat)
    requires forall k | 0 <= k < |tasks| :: DepthOf(s, tasks[k]) != depth
    ensures Load(s, tasks, depth) == 0
  {
    if tasks != [] {
      LoadElsewhere(s, tasks[1..], depth);
    }
  }

  lemma {:induction false} LoadOutlivesGrowth(s: Tree, s': Tree, tasks: seq<Task>, depth: nat)
    requires Grown(s, s') && forall k | 0 <= k < |tasks| :: tasks[k].id in s.turns
    ensures Load(s', tasks, depth) == Load(s, tasks, depth)
  {
    if tasks != [] {
      LoadOutlivesGrowth(s, s', tasks[1..], depth);
    }
  }

  /** What replaces the first task lies deeper, or weighs less. */
  lemma ActAtDepth(c: Config, start: Tree, s: Cascading, depth: nat)
    requires CascadeInv(c, start, s) && CanMove(c, s, Act)
    requires depth <= DepthOf(s.tree, s.tasks[0])
    ensures var before, after := Load(s.tree, s.tasks, depth), Load(s.tree, Do(c, s, Act).tasks, depth);
            if depth == DepthOf(s.tree, s.tasks[0]) then after < before else after == before
  {
    var task, rest := s.tasks[0], s.tasks[1..];
    var t := s.tree.turns[task.id];
    assert TurnOk(c, s.tree, task.id);
    if task.Snapshot? && !t.isRoot {
      LoadElsewhere(s.tree, Visits(t.children), depth);
      LoadConcat(s.tree, Visits(t.children), rest, depth);
    } else if task.Visit? && task.id in s.tree.active {
      assert ([Snapshot(task.id)] + rest)[1..] == rest;
    }
  }

  lemma ActLowers(c: Config, start: Tree, s: Cascading)
    requires CascadeInv(c, start, s) && CanMove(c, s, Act)
    ensures Lower(Loads(c, Do(c, s, Act)), Loads(c, s))
  {
    var s', i := Do(c, s, Act), DepthOf(s.tree, s.tasks[0]);
    assert TurnOk(c, s.tree, s.tasks[0].id);
    forall depth: nat | depth <= i
      ensures var before, after := Load(s.tree, s.tasks, depth), Load(s.tree, s'.tasks, depth);
              if depth == i then after < before else after == before
    {
      ActAtDepth(c, start, s, depth);
    }
    assert Loads(c, s')[..i] == Loads(c, s)[..i];
    assert Loads(c, s')[i] < Loads(c, s)[i];
  }

  lemma SpawningKeepsLoads(c: Config, start: Tree, s: Cascading, step: Step)
    requires CascadeInv(c, start, s) && Enabled(c, s.tree, step)
    ensures Loads(c, Do(c, s, Spawning(step))) == Loads(c, s)
  {
    StepGrows(c, s.tree, step);
    forall depth: nat | depth <= c.maxDepth
      ensures Load(Next(c, s.tree, step), s.tasks, depth) == Load(s.tree, s.tasks, depth)
    {
      LoadOutlivesGrowth(s.tree, Next(c, s.tree, step), s.tasks, depth);
    }
  }

  lemma {:induction false} MovesLower(c: Config, start: Tree, s: Cascading, moves: seq<Move>)
    requires CascadeInv(c, start, s) && CanDo(c, s, moves)
    ensures Loads(c, DoAll(c, s, moves)) == Loads(c, s) || Lower(Loads(c, DoAll(c, s, moves)), Loads(c, s))
    ensures Act in moves ==> Lower(Loads(c, DoAll(c, s, moves)), Loads(c, s))
    decreases |moves|
  {
    if moves != [] {
      var s' := Do(c, s, moves[0]);
      match moves[0] {
        case Spawning(step) =>
          SpawningKeepsLoads(c, start, s, step);
          SpawningKeepsInv(c, start, s, step);
        case Act =>
          ActLowers(c, start, s);
          ActKeepsInv(c, start, s);
      }
      MovesLower(c, start, s', moves[1..]);
      assert moves == [moves[0]] + moves[1..];
      if Lower(Loads(c, s'), Loads(c, s)) && Lower(Loads(c, DoAll(c, s', moves[1..])), Loads(c, s')) {
        LowerTransitive(Loads(c, DoAll(c, s', moves[1..])), Loads(c, s'), Loads(c, s));
      }
    }
  }

  lemma {:induction false} InfiniteRunKeepsInv(c: Config, start: Tree, states: nat -> Cascading, moves: nat -> seq<Move>, n: nat)
    requires CascadeInv(c, start, states(0))
    requires forall k: nat :: CanDo(c, states(k), moves(k)) && states(k + 1) == DoAll(c, states(k), moves(k))
    ensures CascadeInv(c, start, states(n))
  {
    if n > 0 {
      InfiniteRunKeepsInv(c, start, states, moves, n - 1);
      MovesKeepInv(c, start, states(n - 1), moves(n - 1));
    }
  }

  lemma RoundLowers(c: Config, start: Tree, states: nat -> Cascading, moves: nat -> seq<Move>, n: nat)
    requires CascadeInv(c, start, states(0)) && Act in moves(n)
    requires forall k: nat :: CanDo(c, states(k), moves(k)) && states(k + 1) == DoAll(c, states(k), moves(k))
    ensures Lower(Loads(c, states(n + 1)), Loads(c, states(n)))
  {
    InfiniteRunKeepsInv(c, start, states, moves, n);
    MovesLower(c, start, states(n), moves(n));
  }

  /** However much is spawned meanwhile, no infinite run has cascade steps again and again. */
  lemma CascadeEnds(c: Config, steps: seq<Step>, id: nat, states: nat -> Cascading, moves: nat -> seq<Move>)
    requires IsRun(c, EMPTY, steps) && id in Run(c, EMPTY, steps).turns
    requires states(0) == Begin(Run(c, EMPTY, steps), id)
    requires forall n: nat :: CanDo(c, states(n), moves(n)) && states(n + 1) == DoAll(c, states(n), moves(n))
    ensures exists n: nat :: Act !in moves(n)
  {
    RunKeepsInv(c, EMPTY, steps);
    var start := Run(c, EMPTY, steps);
    MovesKeepInv(c, start, Begin(start, id), []);
    if forall n: nat :: Act in moves(n) {
      var f := (n: nat) => Loads(c, states(n));
      forall n: nat
        ensures |f(n)| == c.maxDepth + 1 && Lower(f(n + 1), f(n))
      {
        RoundLowers(c, start, states, moves, n);
      }
      NoInfiniteDescent(f, c.maxDepth + 1);
    }
  }
}
