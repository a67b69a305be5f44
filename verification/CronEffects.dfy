/** What enabling, disabling, removing and finishing a job achieve over every run of the cron service. */
module CronEffects {
  import opened Cron
  import opened CronRuns

  // ----- The jobs one by one -----

  /** `next` is when a job with this schedule runs next, seen from `now`. */
  predicate RunsNext(ticks: Ticks, schedule: Schedule, now: int, next: Moment) {
    match schedule
    case At(at) => if at.Time? && at.ms > now then next == at else next == Never
    case Every(every) =>
      if every.Never? || every.ms <= 0 then next == Never
      else next.Time? && next.ms == now + every.ms - if now + every.ms > MAX_INT64 then 0x1_0000_0000_0000_0000 else 0
    case Expr(expr) => next == ticks(expr, now)
    case Unknown => next == Never
  }

  /** The same job, except for when and whether it runs. */
  predicate SameJob(job: Job, job': Job) {
    job'.id == job.id && job'.schedule == job.schedule && job'.deleteAfterRun == job.deleteAfterRun
  }

  lemma {:induction false} EnableSets(ticks: Ticks, jobs: seq<Job>, id: nat, enabled: bool, now: int, k: nat)
    requires Distinct(jobs) && k < |jobs|
    ensures var jobs' := EnableIn(ticks, jobs, id, enabled, now);
            |jobs'| == |jobs| && jobs'[k] == if jobs[k].id == id then Toggled(ticks, jobs[k], enabled, now) else jobs[k]
  {
    EnableAtFound(ticks, jobs, id, enabled, now);
    FindIsFound(jobs, id, k);
  }

  lemma {:induction false} FindIsFound(jobs: seq<Job>, id: nat, k: nat)
    requires Distinct(jobs) && k < |jobs|
    ensures jobs[k].id == id <==> k == Find(jobs, id)
  {
    if jobs[0].id != id && k > 0 {
      var rest := jobs[1..];
      assert forall i | 0 <= i < |rest| :: rest[i] == jobs[i + 1];
      FindIsFound(rest, id, k - 1);
    }
  }

  lemma {:induction false} RemovedAre(jobs: seq<Job>, id: nat, job: Job)
    ensures job in RemoveFrom(jobs, id) <==> job in jobs && job.id != id
  {
    if jobs != [] {
      RemovedAre(jobs[1..], id, job);
    }
  }

  lemma {:induction false} RecomputeSets(ticks: Ticks, jobs: seq<Job>, now: int, k: nat)
    requires k < |jobs|
    ensures RecomputeAll(ticks, jobs, now)[k] == Recomputed(ticks, jobs[k], now)
  {
    if k > 0 {
      RecomputeSets(ticks, jobs[1..], now, k - 1);
    }
  }

  // ----- What the steps achieve -----

  /** In every run: only the job with the id changes; it is enabled and due by its schedule, or disabled. */
  lemma EnableTakesEffect(ticks: Ticks, steps: seq<Step>, id: nat, enabled: bool, k: nat)
    requires IsRun(ticks, INITIAL, steps) && k < |Run(ticks, INITIAL, steps).jobs|
    ensures var s := Run(ticks, INITIAL, steps);
            var s' := Next(ticks, s, Enable(id, enabled));
            && |s'.jobs| == |s.jobs| && s'.disk == s'.jobs
            && if s.jobs[k].id != id then s'.jobs[k] == s.jobs[k]
               else && SameJob(s.jobs[k], s'.jobs[k]) && s'.jobs[k].enabled == enabled
                    && if enabled then RunsNext(ticks, s.jobs[k].schedule, s.now, s'.jobs[k].next)
                       else s'.jobs[k].next == Never
  {
    RunKeepsInv(ticks, INITIAL, steps);
    var s := Run(ticks, INITIAL, steps);
    EnableSets(ticks, s.jobs, id, enabled, s.now, k);
  }

  /** A new job is enabled and due by its schedule, one-time jobs only are to be deleted; the others stay. */
  lemma AddTakesEffect(ticks: Ticks, s: State, id: nat, schedule: Schedule)
    requires Enabled(s, Add(id, schedule))
    ensures var s' := Next(ticks, s, Add(id, schedule));
            && |s'.jobs| == |s.jobs| + 1 && s'.jobs[..|s.jobs|] == s.jobs && s'.disk == s'.jobs
            && var job := s'.jobs[|s.jobs|];
               && job.id == id && job.schedule == schedule && job.enabled
               && RunsNext(ticks, schedule, s.now, job.next) && (job.deleteAfterRun <==> schedule.At?)
  {
  }

  /** A job that has run: a one-time job is gone or disabled, any other is due again by its schedule. */
  lemma FinishTakesEffect(ticks: Ticks, steps: seq<Step>, id: nat, job: Job)
    requires IsRun(ticks, INITIAL, steps) && Enabled(Run(ticks, INITIAL, steps), Finish(id))
    requires job in Run(ticks, INITIAL, steps).jobs
    ensures var s := Run(ticks, INITIAL, steps);
            var s' := Next(ticks, s, Finish(id));
            if job.id != id then job in s'.jobs
            else if job.schedule.At? && job.deleteAfterRun then forall j | j in s'.jobs :: j.id != id
            else exists job' :: job' in s'.jobs && HasRun(ticks, s.now, job, job')
  {
    RunKeepsInv(ticks, INITIAL, steps);
    var s := Run(ticks, INITIAL, steps);
    var k :| 0 <= k < |s.jobs| && s.jobs[k] == job;
    FindIsFound(s.jobs, id, k);
    CompleteAtFound(ticks, s.jobs, id, s.now);
    forall j
      ensures j in RemoveFrom(s.jobs, id) <==> j in s.jobs && j.id != id
    {
      RemovedAre(s.jobs, id, j);
    }
    CompletedIsThere(ticks, s.jobs, id, s.now, k);
  }

  lemma CompletedIsThere(ticks: Ticks, jobs: seq<Job>, id: nat, now: int, k: nat)
    requires Distinct(jobs) && k < |jobs|
    ensures var jobs' := CompleteIn(ticks, jobs, id, now);
            if jobs[k].id != id then jobs[k] in jobs'
            else exists job' :: job' in jobs' && HasRun(ticks, now, jobs[k], job')
  {
    var jobs' := CompleteIn(ticks, jobs, id, now);
    FindIsFound(jobs, id, k);
    CompleteAtFound(ticks, jobs, id, now);
    assert jobs'[k] in jobs';
    if jobs[k].id == id {
      assert HasRun(ticks, now, jobs[k], jobs'[k]);
    }
  }

  predicate HasRun(ticks: Ticks, now: int, job: Job, job': Job) {
    SameJob(job, job') &&
    if job.schedule.At? then !job'.enabled && job'.next == Never
    else job'.enabled == job.enabled && RunsNext(ticks, job.schedule, now, job'.next)
  }

  /** A start puts every enabled job where its schedule says and leaves the disabled ones alone. */
  lemma StartTakesEffect(ticks: Ticks, steps: seq<Step>, k: nat)
    requires IsRun(ticks, INITIAL, steps) && !Run(ticks, INITIAL, steps).running
    requires k < |Run(ticks, INITIAL, steps).jobs|
    ensures var s := Run(ticks, INITIAL, steps);
            var s' := Next(ticks, s, Start);
            && s'.running && |s'.jobs| == |s.jobs|
            && if s.jobs[k].enabled then
                 && SameJob(s.jobs[k], s'.jobs[k]) && s'.jobs[k].enabled
                 && RunsNext(ticks, s.jobs[k].schedule, s.now, s'.jobs[k].next)
               else s'.jobs[k] == s.jobs[k]
  {
    RunKeepsInv(ticks, INITIAL, steps);
    var s := Run(ticks, INITIAL, steps);
    RecomputeSets(ticks, s.jobs, s.now, k);
  }

  /**
   Whenever the process dies: the new service has every job as it was, enabled or not, and claims nothing
   until it is started.
   */
  lemma RestartLosesNothing(ticks: Ticks, steps: seq<Step>)
    requires IsRun(ticks, INITIAL, steps)
    ensures var s := Run(ticks, INITIAL, steps);
            var s' := Next(ticks, s, Restart);
            s'.jobs == s.jobs == s'.disk && !s'.running && Next(ticks, s', Check) == s'
  {
    RunKeepsInv(ticks, INITIAL, steps);
  }

  /** A check adds a claim for this id. */
  predicate Claims(s: State, s': State, id: nat) {
    exists k :: |s.claims| <= k < |s'.claims| && s'.claims[k].id == id
  }

  /** A check claims a job if and only if it is enabled and its next run has come. */
  lemma CheckClaimsIff(ticks: Ticks, s: State, id: nat)
    ensures var s' := Next(ticks, s, Check);
            Claims(s, s', id) <==>
              s.running && exists job :: job in s.jobs && job.id == id && job.enabled && job.next.Time? && job.next.ms <= s.now
  {
    if s.running {
      var due := DueJobs(s.jobs, s.now);
      assert Next(ticks, s, Check).claims == s.claims + ClaimsOf(due, s.now);
      ClaimsAreDue(s, due, Next(ticks, s, Check), id);
      DueIds(s.jobs, s.now, id);
    }
  }

  lemma ClaimsAreDue(s: State, due: seq<Job>, s': State, id: nat)
    requires s'.claims == s.claims + ClaimsOf(due, s.now)
    ensures Claims(s, s', id) <==> id in IdsOf(due)
  {
    IdsOfAt(due, id);
    if id in IdsOf(due) {
      var k :| 0 <= k < |due| && due[k].id == id;
      NewClaimId(s, due, s', k);
    }
    if Claims(s, s', id) {
      var k :| |s.claims| <= k < |s'.claims| && s'.claims[k].id == id;
      NewClaimId(s, due, s', k - |s.claims|);
    }
  }

  lemma NewClaimId(s: State, due: seq<Job>, s': State, k: nat)
    requires s'.claims == s.claims + ClaimsOf(due, s.now) && k < |due|
    ensures |s'.claims| == |s.claims| + |due| && s'.claims[|s.claims| + k].id == due[k].id
  {
  }

  /** The claim is for one of the jobs that were due. */
  predicate ClaimsDueJob(s: State, c: Claim) {
    exists job :: job in s.jobs && IsDue(job, s.now) && c == Claim(job.id, job.schedule, s.now, job.next.ms)
  }

  /** Each new claim names a due job, its schedule, the present moment and when it was due. */
  lemma CheckClaimsDueJobs(ticks: Ticks, s: State, k: nat)
    requires |s.claims| <= k < |Next(ticks, s, Check).claims|
    ensures s.claims <= Next(ticks, s, Check).claims && ClaimsDueJob(s, Next(ticks, s, Check).claims[k])
  {
    var due := DueJobs(s.jobs, s.now);
    assert Next(ticks, s, Check).claims == s.claims + ClaimsOf(due, s.now);
    DueHaveTimes(s.jobs, s.now);
    assert due[k - |s.claims|] in s.jobs;
  }

  /** Right after it is enabled a job is due exactly from the time that its schedule gives. */
  lemma EnabledIsDueFrom(ticks: Ticks, steps: seq<Step>, id: nat, k: nat, to: int)
    requires IsRun(ticks, INITIAL, steps) && k < |Run(ticks, INITIAL, steps).jobs|
    requires Run(ticks, INITIAL, steps).jobs[k].id == id
    requires Run(ticks, INITIAL, steps).running && Run(ticks, INITIAL, steps).now <= to
    ensures var s := Run(ticks, INITIAL, steps);
            var s1 := Next(ticks, s, Enable(id, true));
            var s2 := Next(ticks, s1, Tick(to));
            exists next :: RunsNext(ticks, s.jobs[k].schedule, s.now, next) &&
                           (Claims(s2, Next(ticks, s2, Check), id) <==> next.Time? && next.ms <= to)
  {
    var s := Run(ticks, INITIAL, steps);
    var s1 := Next(ticks, s, Enable(id, true));
    var s2 := Next(ticks, s1, Tick(to));
    RunKeepsInv(ticks, INITIAL, steps);
    EnableTakesEffect(ticks, steps, id, true, k);
    StepKeepsInv(ticks, s, Enable(id, true));
    CheckClaimsIff(ticks, s2, id);
    var job := s2.jobs[k];
    assert RunsNext(ticks, s.jobs[k].schedule, s.now, job.next);
    assert job in s2.jobs && job.id == id;
    assert Distinct(s2.jobs);
    forall j | j in s2.jobs && j.id == id
      ensures j == job
    {
      SameIdSameJob(s2.jobs, j, job);
    }
  }

  // ----- Disabled and removed jobs stay quiet -----

  /** No job with this id is enabled, nor can a new one get the id. */
  predicate Quiet(s: State, id: nat) {
    id in s.known && forall k | 0 <= k < |s.jobs| :: s.jobs[k].id == id ==> !s.jobs[k].enabled
  }

  predicate Gone(s: State, id: nat) {
    id in s.known && forall k | 0 <= k < |s.jobs| :: s.jobs[k].id != id
  }

  /** What one step does to one job of its result: it was there before, no less enabled, or it is new. */
  predicate ComesFrom(s: State, step: Step, job': Job) {
    || (exists job :: job in s.jobs && job.id == job'.id && (job'.enabled ==> job.enabled || step == Enable(job.id, true)))
    || (step.Add? && job'.id == step.id)
  }

  lemma JobComesFrom(ticks: Ticks, s: State, step: Step, k: nat)
    requires Inv(s) && Enabled(s, step) && k < |Next(ticks, s, step).jobs|
    ensures ComesFrom(s, step, Next(ticks, s, step).jobs[k])
  {
    var jobs' := Next(ticks, s, step).jobs;
    match step {
      case Enable(id, enabled) =>
        EnableReschedules(ticks, s.jobs, id, enabled, s.now);
        EnableSets(ticks, s.jobs, id, enabled, s.now, k);
        assert s.jobs[k] in s.jobs;
      case Remove(id) => RemovedAre(s.jobs, id, jobs'[k]);
      case Start =>
        if !s.running {
          RecomputeSets(ticks, s.jobs, s.now, k);
        }
        assert s.jobs[k] in s.jobs;
      case Check =>
        if s.running {
          ClearedJobs(s.jobs, IdsOf(DueJobs(s.jobs, s.now)));
        }
        assert s.jobs[k] in s.jobs;
      case Finish(id) => FinishedComesFrom(ticks, s, id, k);
      case Add(_, _) => assert k < |s.jobs| ==> jobs'[k] == s.jobs[k] && s.jobs[k] in s.jobs;
      case _ => assert s.jobs[k] in s.jobs;
    }
  }

  lemma FinishedComesFrom(ticks: Ticks, s: State, id: nat, k: nat)
    requires Inv(s) && k < |FinishIn(ticks, s.jobs, id, s.now)|
    ensures ComesFrom(s, Finish(id), FinishIn(ticks, s.jobs, id, s.now)[k])
  {
    var jobs' := FinishIn(ticks, s.jobs, id, s.now);
    RemovedAre(s.jobs, id, jobs'[k]);
    CompleteAtFound(ticks, s.jobs, id, s.now);
    if jobs'[k] !in s.jobs {
      assert s.jobs[k] in s.jobs;
    }
  }

  lemma StepStaysQuiet(ticks: Ticks, s: State, step: Step, id: nat)
    requires Inv(s) && Enabled(s, step) && Quiet(s, id) && step != Enable(id, true)
    ensures Quiet(Next(ticks, s, step), id)
  {
    var s' := Next(ticks, s, step);
    forall k | 0 <= k < |s'.jobs|
      ensures s'.jobs[k].id == id ==> !s'.jobs[k].enabled
    {
      JobComesFrom(ticks, s, step, k);
    }
  }

  lemma StepStaysGone(ticks: Ticks, s: State, step: Step, id: nat)
    requires Inv(s) && Enabled(s, step) && Gone(s, id)
    ensures Gone(Next(ticks, s, step), id)
  {
    var s' := Next(ticks, s, step);
    forall k | 0 <= k < |s'.jobs|
      ensures s'.jobs[k].id != id
    {
      JobComesFrom(ticks, s, step, k);
    }
  }

  /** The claims made since `s` have other ids. */
  predicate NoNewClaim(s: State, t: State, id: nat) {
    s.claims <= t.claims && forall k | |s.claims| <= k < |t.claims| :: t.claims[k].id != id
  }

  lemma QuietStepMakesNoClaim(ticks: Ticks, s: State, step: Step, id: nat)
    requires Enabled(s, step) && Quiet(s, id)
    ensures NoNewClaim(s, Next(ticks, s, step), id)
  {
    if step.Check? {
      CheckClaimsIff(ticks, s, id);
    }
  }

  lemma NoNewClaimThen(s: State, t: State, u: State, id: nat)
    requires NoNewClaim(s, t, id) && NoNewClaim(t, u, id)
    ensures NoNewClaim(s, u, id)
  {
  }

  predicate NeverEnabled(steps: seq<Step>, id: nat) {
    Enable(id, true) !in steps
  }

  lemma {:induction false} QuietRun(ticks: Ticks, s: State, steps: seq<Step>, id: nat)
    requires Inv(s) && Quiet(s, id) && IsRun(ticks, s, steps) && (Gone(s, id) || NeverEnabled(steps, id))
    ensures NoNewClaim(s, Run(ticks, s, steps), id) && Quiet(Run(ticks, s, steps), id)
    ensures Gone(s, id) ==> Gone(Run(ticks, s, steps), id)
    decreases |steps|
  {
    if steps != [] {
      var s' := Next(ticks, s, steps[0]);
      StepKeepsInv(ticks, s, steps[0]);
      QuietStepMakesNoClaim(ticks, s, steps[0], id);
      if Gone(s, id) {
        StepStaysGone(ticks, s, steps[0], id);
      } else {
        StepStaysQuiet(ticks, s, steps[0], id);
      }
      QuietRun(ticks, s', steps[1..], id);
      NoNewClaimThen(s, s', Run(ticks, s', steps[1..]), id);
    }
  }

  /**
   Over every run, also one in which the process restarts or the job was running: once a job has been
   disabled it is not claimed again before it is enabled.
   */
  lemma DisabledIsNotClaimed(ticks: Ticks, before: seq<Step>, id: nat, after: seq<Step>)
    requires IsRun(ticks, INITIAL, before) && id in Run(ticks, INITIAL, before).known
    requires IsRun(ticks, Next(ticks, Run(ticks, INITIAL, before), Enable(id, false)), after) && NeverEnabled(after, id)
    ensures var s := Run(ticks, INITIAL, before);
            NoNewClaim(s, Run(ticks, Next(ticks, s, Enable(id, false)), after), id)
  {
    RunKeepsInv(ticks, INITIAL, before);
    var s := Run(ticks, INITIAL, before);
    var s' := Next(ticks, s, Enable(id, false));
    StepKeepsInv(ticks, s, Enable(id, false));
    EnableReschedules(ticks, s.jobs, id, false, s.now);
    forall k | 0 <= k < |s'.jobs|
      ensures s'.jobs[k].id == id ==> !s'.jobs[k].enabled
    {
      EnableSets(ticks, s.jobs, id, false, s.now, k);
    }
    QuietRun(ticks, s', after, id);
  }

  /** Once a job has been removed it is gone for good and never claimed again; no other job is removed. */
  lemma RemovedIsGone(ticks: Ticks, before: seq<Step>, id: nat, after: seq<Step>)
    requires IsRun(ticks, INITIAL, before) && id in Run(ticks, INITIAL, before).known
    requires IsRun(ticks, Next(ticks, Run(ticks, INITIAL, before), Remove(id)), after)
    ensures var s := Run(ticks, INITIAL, before);
            var s' := Next(ticks, s, Remove(id));
            && NoNewClaim(s, Run(ticks, s', after), id) && Gone(Run(ticks, s', after), id)
            && forall job | job in s.jobs && job.id != id :: job in s'.jobs
  {
    RunKeepsInv(ticks, INITIAL, before);
    var s := Run(ticks, INITIAL, before);
    var s' := Next(ticks, s, Remove(id));
    StepKeepsInv(ticks, s, Remove(id));
    forall job
      ensures job in s'.jobs <==> job in s.jobs && job.id != id
    {
      RemovedAre(s.jobs, id, job);
    }
    QuietRun(ticks, s', after, id);
  }
}
