/**
 The system-prompt cache (`pkg/agent/context.go`): a baseline of the tracked files is taken before
 the prompt is built, and file changes between any two file operations are allowed.
 */
module PromptCache {

  type Path = nat

  datatype File = File(mtime: int, text: string)

  /** The files whose changes invalidate the prompt: source files, and files under skill roots. */
  datatype Tracked = Tracked(sources: set<Path>, skills: set<Path>)

  /** Existence of the sources, modification times of the skill files, and the latest time seen. */
  datatype Baseline = Baseline(existed: map<Path, bool>, skillFiles: map<Path, int>, maxMtime: int)

  /** The contents the prompt was built from. */
  type Prompt = map<Path, string>

  datatype Cache = NoCache | Cached(base: Baseline, prompt: Prompt)

  const EPOCH := 1

  // ----- Baseline and check -----

  function StatInto(t: Tracked, files: map<Path, File>, base: Baseline, p: Path): Baseline {
    var seen := if p in files && files[p].mtime > base.maxMtime then files[p].mtime else base.maxMtime;
    if p in t.sources then Baseline(base.existed[p := p in files], base.skillFiles, seen)
    else if p in files then Baseline(base.existed, base.skillFiles[p := files[p].mtime], seen)
    else base
  }

  function CachedAt(base: Baseline): int {
    if base.maxMtime == 0 then EPOCH else base.maxMtime
  }

  predicate FileChanged(files: map<Path, File>, base: Baseline, p: Path) {
    p !in base.existed || base.existed[p] != (p in files) || (p in files && files[p].mtime > CachedAt(base))
  }

  predicate SkillChanged(files: map<Path, File>, base: Baseline, p: Path) {
    if p in base.skillFiles then p !in files || files[p].mtime != base.skillFiles[p] else p in files
  }

  /** The answer "unchanged" of `sourceFilesChangedLocked`. */
  predicate Unchanged(t: Tracked, files: map<Path, File>, base: Baseline) {
    (forall p | p in t.sources :: !FileChanged(files, base, p)) &&
    (forall p | p in t.skills :: !SkillChanged(files, base, p))
  }

  function All(t: Tracked): set<Path> {
    t.sources + t.skills
  }

  predicate IsTimeOf(paths: set<Path>, files: map<Path, File>, time: int) {
    exists p :: p in paths && p in files && files[p].mtime == time
  }

  /** The baseline of files that nobody changes meanwhile. */
  ghost predicate Describes(t: Tracked, files: map<Path, File>, b: Baseline) {
    && b.existed.Keys == t.sources && (forall p | p in t.sources :: b.existed[p] == (p in files))
    && b.skillFiles.Keys == t.skills * files.Keys
    && (forall p | p in b.skillFiles :: b.skillFiles[p] == files[p].mtime)
    && (forall p | p in All(t) && p in files :: files[p].mtime <= b.maxMtime)
    && 0 <= b.maxMtime && (b.maxMtime == 0 || IsTimeOf(All(t), files, b.maxMtime))
  }

  /** Not later than the latest tracked file; without files, than one second of the epoch. */
  predicate NotLater(t: Tracked, files: map<Path, File>, time: int) {
    || (exists p :: p in All(t) && p in files && time <= files[p].mtime)
    || (time <= EPOCH && forall p | p in All(t) && p in files :: files[p].mtime <= 0)
  }

  predicate SourceLooksTheSame(t: Tracked, before: map<Path, File>, after: map<Path, File>, p: Path) {
    (p in after <==> p in before) && (p in after ==> NotLater(t, before, after[p].mtime))
  }

  predicate SkillLooksTheSame(before: map<Path, File>, after: map<Path, File>, p: Path) {
    (p in after <==> p in before) && (p in after && p in before ==> after[p].mtime == before[p].mtime)
  }

  /**
   Whatever the files were like then and are like now, with any times: the check answers "unchanged" if
   and only if the same tracked files exist, no source file is later than all tracked files were, and
   every skill file has exactly the time it had. An older time is noticed in skill files only.
   */
  lemma UnchangedIff(t: Tracked, before: map<Path, File>, after: map<Path, File>, b: Baseline)
    requires Describes(t, before, b)
    ensures Unchanged(t, after, b) <==>
              && (forall p | p in t.sources :: SourceLooksTheSame(t, before, after, p))
              && (forall p | p in t.skills :: SkillLooksTheSame(before, after, p))
  {
    forall p | p in t.sources
      ensures !FileChanged(after, b, p) <==> SourceLooksTheSame(t, before, after, p)
    {
      if p in after {
        LatestTime(t, before, b, after[p].mtime);
      }
    }
    forall p | p in t.skills
      ensures !SkillChanged(after, b, p) <==> SkillLooksTheSame(before, after, p)
    {
    }
  }

  lemma LatestTime(t: Tracked, files: map<Path, File>, b: Baseline, time: int)
    requires Describes(t, files, b)
    ensures time <= CachedAt(b) <==> NotLater(t, files, time)
  {
    if b.maxMtime != 0 {
      var p :| p in All(t) && p in files && files[p].mtime == b.maxMtime;
    }
  }

  // ----- The code, between two file changes -----

  /** The cache fields of a `ContextBuilder`. */
  class ContextBuilder {
    var cachedSystemPrompt: Prompt
    var base: Baseline
    var valid: bool
    const tracked: Tracked

    constructor (tracked: Tracked)
      ensures this.tracked == tracked && !valid
    {
      this.tracked, this.valid := tracked, false;
      this.cachedSystemPrompt, this.base := map[], Baseline(map[], map[], 0);
    }

    /** The existence of the source files, and the latest of their modification times. */
    method StatSources(files: map<Path, File>) returns (existed: map<Path, bool>, maxMtime: int)
      ensures existed.Keys == tracked.sources && forall p | p in tracked.sources :: existed[p] == (p in files)
      ensures forall p | p in tracked.sources && p in files :: files[p].mtime <= maxMtime
      ensures 0 <= maxMtime && (maxMtime == 0 || IsTimeOf(tracked.sources, files, maxMtime))
    {
      existed, maxMtime := map[], 0;
      var todo := tracked.sources;
      while todo != {}
        invariant todo <= tracked.sources && existed.Keys == tracked.sources - todo
        invariant forall p | p in existed :: existed[p] == (p in files) && (p in files ==> files[p].mtime <= maxMtime)
        invariant 0 <= maxMtime && (maxMtime == 0 || IsTimeOf(tracked.sources, files, maxMtime))
        decreases |todo|
      {
        var p :| p in todo;
        todo := todo - {p};
        existed := existed[p := p in files];
        if p in files && files[p].mtime > maxMtime {
          maxMtime := files[p].mtime;
        }
      }
    }

    /** The modification times of the skill files, and the latest of them and of `seen`. */
    method WalkSkills(files: map<Path, File>, seen: int) returns (skillFiles: map<Path, int>, maxMtime: int)
      ensures skillFiles.Keys == tracked.skills * files.Keys && seen <= maxMtime
      ensures forall p | p in skillFiles :: skillFiles[p] == files[p].mtime <= maxMtime
      ensures maxMtime == seen || IsTimeOf(tracked.skills, files, maxMtime)
    {
      skillFiles, maxMtime := map[], seen;
      var todo := tracked.skills;
      while todo != {}
        invariant todo <= tracked.skills && skillFiles.Keys == (tracked.skills - todo) * files.Keys && seen <= maxMtime
        invariant forall p | p in skillFiles :: skillFiles[p] == files[p].mtime <= maxMtime
        invariant maxMtime == seen || IsTimeOf(tracked.skills, files, maxMtime)
        decreases |todo|
      {
        var p :| p in todo;
        todo := todo - {p};
        if p in files {
          skillFiles := skillFiles[p := files[p].mtime];
          if files[p].mtime > maxMtime {
            maxMtime := files[p].mtime;
          }
        }
      }
    }

    /**
     A baseline of files that nobody changes meanwhile records which sources exist, when each skill
     file was written and a time that none of them exceeds; it is one that answers "unchanged".
     */
    method BuildCacheBaseline(files: map<Path, File>) returns (b: Baseline)
      ensures Describes(tracked, files, b)
      ensures Unchanged(tracked, files, b)
    {
      var existed, seen := StatSources(files);
      var skillFiles, maxMtime := WalkSkills(files, seen);
      b := Baseline(existed, skillFiles, maxMtime);
      assert CachedAt(b) >= maxMtime;
    }

    method SourceFilesChanged(files: map<Path, File>) returns (changed: bool)
      ensures changed == !Unchanged(tracked, files, base)
    {
      var todo := tracked.sources;
      while todo != {}
        invariant todo <= tracked.sources
        invariant forall p | p in tracked.sources - todo :: !FileChanged(files, base, p)
        decreases |todo|
      {
        var p :| p in todo;
        if FileChanged(files, base, p) {
          return true;
        }
        todo := todo - {p};
      }
      todo := tracked.skills;
      while todo != {}
        invariant todo <= tracked.skills
        invariant forall p | p in tracked.skills - todo :: !SkillChanged(files, base, p)
        decreases |todo|
      {
        var p :| p in todo;
        if SkillChanged(files, base, p) {
          return true;
        }
        todo := todo - {p};
      }
      changed := false;
    }
  }

  // ----- Runs -----

  datatype Build = Idle | Stating(base: Baseline, left: set<Path>) | Reading(base: Baseline, left: set<Path>, prompt: Prompt)

  /** Every write gets a later modification time than all earlier ones. `end` is the time at which
      the baseline of the build in progress, or else of the cache, was complete. */
  datatype State = State(files: map<Path, File>, clock: int, build: Build, cache: Cache, buildEnd: int, cacheEnd: int)

  datatype Step =
    | Write(p: Path, text: string) | Delete(p: Path)
    | BeginBuild | Stat(p: Path) | EndBaseline | ReadFile(p: Path) | EndBuild | Invalidate

  const INITIAL := State(map[], EPOCH, Idle, NoCache, EPOCH, EPOCH)

  predicate Enabled(t: Tracked, s: State, step: Step) {
    match step
    case Write(_, _) => true
    case Delete(p) => p in s.files
    case BeginBuild => s.build.Idle?
    case Stat(p) => s.build.Stating? && p in s.build.left
    case EndBaseline => s.build.Stating? && s.build.left == {}
    case ReadFile(p) => s.build.Reading? && p in s.build.left
    case EndBuild => s.build.Reading? && s.build.left == {}
    case Invalidate => s.build.Idle?
  }

  function Next(t: Tracked, s: State, step: Step): State
    requires Enabled(t, s, step)
  {
    match step
    case Write(p, text) => s.(clock := s.clock + 1, files := s.files[p := File(s.clock + 1, text)])
    case Delete(p) => s.(files := s.files - {p})
    case BeginBuild => s.(build := Stating(Baseline(map[], map[], 0), All(t)))
    case Stat(p) => s.(build := Stating(StatInto(t, s.files, s.build.base, p), s.build.left - {p}))
    case EndBaseline => s.(build := Reading(s.build.base, All(t), map[]), buildEnd := s.clock)
    case ReadFile(p) =>
      var prompt := if p in s.files then s.build.prompt[p := s.files[p].text] else s.build.prompt;
      s.(build := Reading(s.build.base, s.build.left - {p}, prompt))
    case EndBuild => s.(build := Idle, cache := Cached(s.build.base, s.build.prompt), cacheEnd := s.buildEnd)
    case Invalidate => s.(cache := NoCache)
  }

  predicate IsRun(t: Tracked, s: State, steps: seq<Step>)
    decreases |steps|
  {
    steps == [] || (Enabled(t, s, steps[0]) && IsRun(t, Next(t, s, steps[0]), steps[1..]))
  }

  function Run(t: Tracked, s: State, steps: seq<Step>): State
    requires IsRun(t, s, steps)
    decreases |steps|
  {
    if steps == [] then s else Run(t, Next(t, s, steps[0]), steps[1..])
  }

  // ----- A baseline taken undisturbed -----

  /** The baseline of the tracked files but those of `left`. */
  ghost predicate DescribesSeen(t: Tracked, files: map<Path, File>, b: Baseline, left: set<Path>) {
    Describes(Tracked(t.sources - left, t.skills - left), files, b)
  }

  lemma StatDescribes(t: Tracked, files: map<Path, File>, b: Baseline, left: set<Path>, p: Path)
    requires t.sources !! t.skills && p in left && left <= All(t) && DescribesSeen(t, files, b, left)
    ensures DescribesSeen(t, files, StatInto(t, files, b, p), left - {p})
  {
    var seen, seen' := Tracked(t.sources - left, t.skills - left), Tracked(t.sources - (left - {p}), t.skills - (left - {p}));
    assert seen'.sources == if p in t.sources then seen.sources + {p} else seen.sources;
    assert seen'.skills == if p in t.skills then seen.skills + {p} else seen.skills;
    assert All(seen') == All(seen) + {p};
    var b' := StatInto(t, files, b, p);
    if b'.maxMtime != 0 && b'.maxMtime == b.maxMtime {
      var q :| q in All(seen) && q in files && files[q].mtime == b.maxMtime;
      assert q in All(seen');
    }
  }

  predicate OnlyStats(steps: seq<Step>) {
    forall k | 0 <= k < |steps| :: steps[k].Stat?
  }

  lemma {:induction false} StatsDescribe(t: Tracked, s: State, steps: seq<Step>)
    requires t.sources !! t.skills && IsRun(t, s, steps) && OnlyStats(steps)
    requires s.build.Stating? && s.build.left <= All(t) && DescribesSeen(t, s.files, s.build.base, s.build.left)
    ensures var s' := Run(t, s, steps);
            && s'.files == s.files && s'.build.Stating? && s'.build.left <= All(t)
            && DescribesSeen(t, s'.files, s'.build.base, s'.build.left)
    decreases |steps|
  {
    if steps != [] {
      assert steps[0].Stat?;
      StatDescribes(t, s.files, s.build.base, s.build.left, steps[0].p);
      assert forall k | 0 <= k < |steps| - 1 :: steps[1..][k] == steps[k + 1];
      StatsDescribe(t, Next(t, s, steps[0]), steps[1..]);
    }
  }

  /** In whatever order the steps of a build look at the files: undisturbed, they take the same baseline. */
  lemma BaselineIsSteps(t: Tracked, s: State, steps: seq<Step>)
    requires t.sources !! t.skills && s.build.Idle?
    requires IsRun(t, Next(t, s, BeginBuild), steps) && OnlyStats(steps)
    ensures var s' := Run(t, Next(t, s, BeginBuild), steps);
            && s'.files == s.files && s'.build.Stating?
            && (s'.build.left == {} ==> Describes(t, s.files, s'.build.base))
  {
    var s1 := Next(t, s, BeginBuild);
    assert t.sources - All(t) == {} && t.skills - All(t) == {};
    StatsDescribe(t, s1, steps);
    assert t.sources - {} == t.sources && t.skills - {} == t.skills;
  }

  /** All times of a baseline lie at or before `end`. */
  predicate Before(base: Baseline, end: int) {
    0 <= base.maxMtime <= end && forall p | p in base.skillFiles :: base.skillFiles[p] <= end
  }

  /** A file that was not written since `end` is in the prompt as it is. */
  predicate Faithful(files: map<Path, File>, prompt: Prompt, end: int, p: Path) {
    p in files && files[p].mtime <= end ==> p in prompt && prompt[p] == files[p].text
  }

  /** The baseline has looked at all tracked paths but those of `left`. */
  predicate Covers(t: Tracked, base: Baseline, left: set<Path>) {
    base.existed.Keys == t.sources - left && base.skillFiles.Keys <= t.skills - left
  }

  ghost predicate Inv(t: Tracked, s: State) {
    && t.sources !! t.skills && EPOCH <= s.clock && EPOCH <= s.buildEnd <= s.clock && EPOCH <= s.cacheEnd <= s.clock
    && (forall p | p in s.files :: EPOCH < s.files[p].mtime <= s.clock)
    && (s.build.Stating? ==>
          Before(s.build.base, s.clock) && s.build.left <= All(t) && Covers(t, s.build.base, s.build.left))
    && (s.build.Reading? ==>
          Before(s.build.base, s.buildEnd) && Covers(t, s.build.base, {}) &&
          s.build.left <= All(t) && s.build.prompt.Keys <= All(t) &&
          forall p | p in All(t) - s.build.left :: Faithful(s.files, s.build.prompt, s.buildEnd, p))
    && (s.cache.Cached? ==>
          Before(s.cache.base, s.cacheEnd) && Covers(t, s.cache.base, {}) && s.cache.prompt.Keys <= All(t) &&
          forall p | p in All(t) :: Faithful(s.files, s.cache.prompt, s.cacheEnd, p))
  }

  lemma StatCovers(t: Tracked, files: map<Path, File>, base: Baseline, left: set<Path>, p: Path)
    requires t.sources !! t.skills && Covers(t, base, left) && p in left && left <= All(t)
    ensures Covers(t, StatInto(t, files, base, p), left - {p})
  {
    assert p in t.sources ==> t.sources - (left - {p}) == t.sources - left + {p};
    assert p in t.skills ==> t.sources - (left - {p}) == t.sources - left;
    assert t.skills - left <= t.skills - (left - {p});
  }

  lemma StepKeepsInv(t: Tracked, s: State, step: Step)
    requires Inv(t, s) && Enabled(t, s, step)
    ensures Inv(t, Next(t, s, step))
  {
    var s' := Next(t, s, step);
    if step.Stat? {
      StatCovers(t, s.files, s.build.base, s.build.left, step.p);
    }
    if s'.build.Reading? {
      forall p | p in All(t) - s'.build.left
        ensures Faithful(s'.files, s'.build.prompt, s'.buildEnd, p)
      {
        if s.build.Reading? && p !in s.build.left {
          assert Faithful(s.files, s.build.prompt, s.buildEnd, p);
        }
      }
    }
    if s'.cache.Cached? {
      forall p | p in All(t)
        ensures Faithful(s'.files, s'.cache.prompt, s'.cacheEnd, p)
      {
        if s.cache.Cached? && !step.EndBuild? {
          assert Faithful(s.files, s.cache.prompt, s.cacheEnd, p);
        }
      }
    }
  }

  lemma {:induction false} RunKeepsInv(t: Tracked, s: State, steps: seq<Step>)
    requires Inv(t, s) && IsRun(t, s, steps)
    ensures Inv(t, Run(t, s, steps))
    decreases |steps|
  {
    if steps != [] {
      StepKeepsInv(t, s, steps[0]);
      RunKeepsInv(t, Next(t, s, steps[0]), steps[1..]);
    }
  }

  // ----- Freshness -----

  /** The prompt a build would give now. */
  function Contents(t: Tracked, files: map<Path, File>): Prompt {
    map p | p in files && p in All(t) :: files[p].text
  }

  /** The baseline did not see the file. */
  predicate SeenAbsent(t: Tracked, base: Baseline, p: Path) {
    if p in t.sources then p in base.existed && !base.existed[p] else p !in base.skillFiles
  }

  /** The prompt has a file that its baseline did not see: it was created while the prompt was built. */
  predicate HasPhantom(t: Tracked, base: Baseline, prompt: Prompt) {
    exists p :: p in prompt && SeenAbsent(t, base, p)
  }

  /** The files that the baseline saw are still as it saw them. */
  predicate SeenUnchanged(t: Tracked, files: map<Path, File>, base: Baseline) {
    (forall p | p in t.sources && !SeenAbsent(t, base, p) :: !FileChanged(files, base, p)) &&
    (forall p | p in t.skills && !SeenAbsent(t, base, p) :: !SkillChanged(files, base, p))
  }

  /** An unnoticed change: the check answers "unchanged", but a build would give another prompt. */
  predicate IsStale(t: Tracked, s: State) {
    s.cache.Cached? && Unchanged(t, s.files, s.cache.base) && s.cache.prompt != Contents(t, s.files)
  }

  /** Every existing file is in an unchanged prompt as it is now. */
  lemma UnchangedHasFiles(t: Tracked, s: State, p: Path)
    requires Inv(t, s) && s.cache.Cached? && Unchanged(t, s.files, s.cache.base)
    requires p in All(t) && p in s.files
    ensures p in s.cache.prompt && s.cache.prompt[p] == s.files[p].text
  {
    assert Faithful(s.files, s.cache.prompt, s.cacheEnd, p);
    if p in t.sources {
      assert !FileChanged(s.files, s.cache.base, p);
    } else {
      assert !SkillChanged(s.files, s.cache.base, p);
    }
  }

  /** A file of an unchanged prompt that its baseline saw exists. */
  lemma PromptFileExists(t: Tracked, s: State, p: Path)
    requires Inv(t, s) && s.cache.Cached? && Unchanged(t, s.files, s.cache.base)
    requires p in s.cache.prompt && !SeenAbsent(t, s.cache.base, p)
    ensures p in s.files
  {
    if p in t.sources {
      assert !FileChanged(s.files, s.cache.base, p);
    } else {
      assert !SkillChanged(s.files, s.cache.base, p);
    }
  }

  lemma UnchangedIsCurrent(t: Tracked, s: State)
    requires Inv(t, s) && s.cache.Cached? && Unchanged(t, s.files, s.cache.base)
    requires !HasPhantom(t, s.cache.base, s.cache.prompt)
    ensures s.cache.prompt == Contents(t, s.files)
  {
    forall p
      ensures p in s.cache.prompt <==> p in Contents(t, s.files)
      ensures p in s.cache.prompt ==> s.cache.prompt[p] == Contents(t, s.files)[p]
    {
      if p in s.cache.prompt {
        PromptFileExists(t, s, p);
      }
      if p in All(t) && p in s.files {
        UnchangedHasFiles(t, s, p);
      }
    }
  }

  /**
   Over every interleaving of file changes with the steps of builds: an "unchanged" prompt has every
   existing tracked file as it is now, and if it has no file that its baseline did not see, it is
   exactly the prompt that a build would give now.
   */
  lemma UnchangedIsFresh(t: Tracked, steps: seq<Step>)
    requires IsRun(t, INITIAL, steps) && t.sources !! t.skills
    ensures var s := Run(t, INITIAL, steps);
            s.cache.Cached? && Unchanged(t, s.files, s.cache.base) ==>
              && (forall p | p in All(t) && p in s.files :: p in s.cache.prompt && s.cache.prompt[p] == s.files[p].text)
              && (!HasPhantom(t, s.cache.base, s.cache.prompt) ==> s.cache.prompt == Contents(t, s.files))
  {
    RunKeepsInv(t, INITIAL, steps);
    var s := Run(t, INITIAL, steps);
    if s.cache.Cached? && Unchanged(t, s.files, s.cache.base) {
      forall p | p in All(t) && p in s.files
        ensures p in s.cache.prompt && s.cache.prompt[p] == s.files[p].text
      {
        UnchangedHasFiles(t, s, p);
      }
      if !HasPhantom(t, s.cache.base, s.cache.prompt) {
        UnchangedIsCurrent(t, s);
      }
    }
  }

  // ----- When a cached prompt can go stale unnoticed -----

  predicate OnlyFileChanges(steps: seq<Step>) {
    forall k | 0 <= k < |steps| :: steps[k].Write? || steps[k].Delete?
  }

  /** What the baseline saw never comes back once it has changed. */
  lemma ChangeKeepsSeenChanged(t: Tracked, s: State, step: Step)
    requires Inv(t, s) && s.cache.Cached? && Enabled(t, s, step) && (step.Write? || step.Delete?)
    requires !SeenUnchanged(t, s.files, s.cache.base)
    ensures !SeenUnchanged(t, Next(t, s, step).files, s.cache.base)
  {
    var s', base := Next(t, s, step), s.cache.base;
    if p :| p in t.sources && !SeenAbsent(t, base, p) && FileChanged(s.files, base, p) {
      assert FileChanged(s'.files, base, p);
    } else {
      var p :| p in t.skills && !SeenAbsent(t, base, p) && SkillChanged(s.files, base, p);
      assert SkillChanged(s'.files, base, p);
    }
  }

  lemma {:induction false} ChangesKeepSeenChanged(t: Tracked, s: State, steps: seq<Step>)
    requires Inv(t, s) && s.cache.Cached? && IsRun(t, s, steps) && OnlyFileChanges(steps)
    ensures Run(t, s, steps).cache == s.cache && Inv(t, Run(t, s, steps))
    ensures SeenUnchanged(t, Run(t, s, steps).files, s.cache.base) ==> SeenUnchanged(t, s.files, s.cache.base)
    decreases |steps|
  {
    if steps != [] {
      assert steps[0].Write? || steps[0].Delete?;
      StepKeepsInv(t, s, steps[0]);
      if !SeenUnchanged(t, s.files, s.cache.base) {
        ChangeKeepsSeenChanged(t, s, steps[0]);
      }
      assert forall k | 0 <= k < |steps| - 1 :: steps[1..][k] == steps[k + 1];
      ChangesKeepSeenChanged(t, Next(t, s, steps[0]), steps[1..]);
    }
  }

  lemma UnchangedIsSeenUnchanged(t: Tracked, files: map<Path, File>, base: Baseline)
    requires Covers(t, base, {}) && t.sources !! t.skills
    ensures Unchanged(t, files, base) <==>
              SeenUnchanged(t, files, base) && forall p | p in All(t) && SeenAbsent(t, base, p) :: p !in files
  {
  }

  /** Deletes files one by one. */
  lemma {:induction false} DeleteAll(t: Tracked, s: State, paths: set<Path>) returns (steps: seq<Step>)
    requires paths <= s.files.Keys
    ensures IsRun(t, s, steps) && OnlyFileChanges(steps)
    ensures Run(t, s, steps) == s.(files := s.files - paths)
    decreases |paths|
  {
    steps := [];
    if paths == {} {
      assert s.files - paths == s.files;
    } else {
      var p :| p in paths;
      var s' := Next(t, s, Delete(p));
      var rest := DeleteAll(t, s', paths - {p});
      assert s.files - {p} - (paths - {p}) == s.files - paths;
      RunOne(t, s, Delete(p), rest);
      steps := [Delete(p)] + rest;
    }
  }

  /**
   In every reachable state: some sequence of file changes makes the cached prompt stale without the
   check noticing if and only if the prompt has a file that its baseline did not see, and the files
   the baseline did see have not changed yet.
   */
  lemma CanGoStaleIff(t: Tracked, before: seq<Step>)
    requires IsRun(t, INITIAL, before) && t.sources !! t.skills
    requires Run(t, INITIAL, before).cache.Cached?
    ensures var s := Run(t, INITIAL, before);
            (exists steps :: IsRun(t, s, steps) && OnlyFileChanges(steps) && IsStale(t, Run(t, s, steps))) <==>
            HasPhantom(t, s.cache.base, s.cache.prompt) && SeenUnchanged(t, s.files, s.cache.base)
  {
    RunKeepsInv(t, INITIAL, before);
    var s := Run(t, INITIAL, before);
    if HasPhantom(t, s.cache.base, s.cache.prompt) && SeenUnchanged(t, s.files, s.cache.base) {
      var steps := GoesStale(t, s);
    }
    if steps :| IsRun(t, s, steps) && OnlyFileChanges(steps) && IsStale(t, Run(t, s, steps)) {
      StaleHasPhantom(t, s, steps);
    }
  }

  lemma StaleHasPhantom(t: Tracked, s: State, steps: seq<Step>)
    requires Inv(t, s) && s.cache.Cached? && IsRun(t, s, steps) && OnlyFileChanges(steps) && IsStale(t, Run(t, s, steps))
    ensures HasPhantom(t, s.cache.base, s.cache.prompt) && SeenUnchanged(t, s.files, s.cache.base)
  {
    var s' := Run(t, s, steps);
    ChangesKeepSeenChanged(t, s, steps);
    UnchangedIsSeenUnchanged(t, s'.files, s.cache.base);
    if !HasPhantom(t, s.cache.base, s.cache.prompt) {
      UnchangedIsCurrent(t, s');
    }
  }

  lemma GoesStale(t: Tracked, s: State) returns (steps: seq<Step>)
    requires Inv(t, s) && s.cache.Cached?
    requires HasPhantom(t, s.cache.base, s.cache.prompt) && SeenUnchanged(t, s.files, s.cache.base)
    ensures IsRun(t, s, steps) && OnlyFileChanges(steps) && IsStale(t, Run(t, s, steps))
  {
    var base := s.cache.base;
    var phantoms := set p | p in s.files && p in All(t) && SeenAbsent(t, base, p);
    steps := DeleteAll(t, s, phantoms);
    var files' := s.files - phantoms;
    assert SeenUnchanged(t, files', base);
    UnchangedIsSeenUnchanged(t, files', base);
    var p :| p in s.cache.prompt && SeenAbsent(t, base, p);
    assert p !in Contents(t, files');
  }

  /** A source file that is created after the baseline, read, and deleted goes unnoticed. */
  lemma TransientFileExample(p: Path, text: string)
    ensures var t := Tracked({p}, {});
            var steps := [BeginBuild, Stat(p), EndBaseline, Write(p, text), ReadFile(p), EndBuild, Delete(p)];
            && IsRun(t, INITIAL, steps)
            && var s := Run(t, INITIAL, steps);
               s.cache.Cached? && Unchanged(t, s.files, s.cache.base) && p in s.cache.prompt && p !in s.files
  {
    var t := Tracked({p}, {});
    assert All(t) == {p};
    var b := Baseline(map[p := false], map[], 0);
    var s1 := Next(t, INITIAL, BeginBuild);
    var s2 := Next(t, s1, Stat(p));
    assert s2.build == Stating(b, {});
    var s3 := Next(t, s2, EndBaseline);
    var s4 := Next(t, s3, Write(p, text));
    var s5 := Next(t, s4, ReadFile(p));
    assert s5.build.left == {};
    var s6 := Next(t, s5, EndBuild);
    var s7 := Next(t, s6, Delete(p));
    assert IsRun(t, s7, []) && Run(t, s7, []) == s7;
    RunOne(t, s6, Delete(p), []);
    RunOne(t, s5, EndBuild, [Delete(p)]);
    RunOne(t, s4, ReadFile(p), [EndBuild, Delete(p)]);
    RunOne(t, s3, Write(p, text), [ReadFile(p), EndBuild, Delete(p)]);
    RunOne(t, s2, EndBaseline, [Write(p, text), ReadFile(p), EndBuild, Delete(p)]);
    RunOne(t, s1, Stat(p), [EndBaseline, Write(p, text), ReadFile(p), EndBuild, Delete(p)]);
    RunOne(t, INITIAL, BeginBuild, [Stat(p), EndBaseline, Write(p, text), ReadFile(p), EndBuild, Delete(p)]);
  }

  lemma RunOne(t: Tracked, s: State, step: Step, rest: seq<Step>)
    requires Enabled(t, s, step) && IsRun(t, Next(t, s, step), rest)
    ensures IsRun(t, s, [step] + rest) && Run(t, s, [step] + rest) == Run(t, Next(t, s, step), rest)
  {
    assert ([step] + rest)[1..] == rest;
  }
}
