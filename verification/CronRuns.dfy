/** Runs of the cron service: in which order and how often its jobs are claimed. */
module CronRuns {
  import opened Cron

  /** A job was found due at `at`, when its next run was `due`. */
  datatype Claim = Claim(id: nat, schedule: Schedule, at: int, due: int)

  /** `known` are the ids ever given out; `inFlight` are claimed jobs whose update is still to come. */
  datatype State = State(jobs: seq<Job>, disk: seq<Job>, running: bool, now: int,
                         known: set<nat>, inFlight: multiset<nat>, claims: seq<Claim>)

  datatype Step =
    | Tick(to: int)                      // the clock moves
    | Add(id: nat, schedule: Schedule)   // generateID gives an id that was never given out
    | Enable(id: nat, enabled: bool)
    | Remove(id: nat)
    | Start
    | Stop
    | Check                              // a run loop finds its timer expired
    | Finish(id: nat)                    // a claimed job has run, or had been removed
    | Restart                            // the process dies at any moment; a new service loads the store

  const INITIAL := State([], [], false, 0, {}, multiset{}, [])

  predicate Enabled(s: State, step: Step) {
    match step
    case Tick(to) => s.now <= to
    case Add(id, _) => id !in s.known
    case Finish(id) => id in s.inFlight
    case _ => true
  }

  function ClaimOf(job: Job, now: int): Claim {
    Claim(job.id, job.schedule, now, if job.next.Time? then job.next.ms else now)
  }

  function ClaimsOf(due: seq<Job>, now: int): (claims: seq<Claim>)
    ensures |claims| == |due| && forall k | 0 <= k < |due| :: claims[k] == ClaimOf(due[k], now)
  {
    if due == [] then [] else [ClaimOf(due[0], now)] + ClaimsOf(due[1..], now)
  }

  lemma {:induction false} DueHaveTimes(jobs: seq<Job>, now: int)
    ensures forall k | 0 <= k < |DueJobs(jobs, now)| ::
              DueJobs(jobs, now)[k] in jobs && IsDue(DueJobs(jobs, now)[k], now)
  {
    if jobs != [] {
      DueHaveTimes(jobs[1..], now);
    }
  }

  /** Every method saves, and every save succeeds. */
  function Saved(s: State, jobs: seq<Job>): State {
    s.(jobs := jobs, disk := jobs)
  }

  function Next(ticks: Ticks, s: State, step: Step): State
    requires Enabled(s, step)
  {
    match step
    case Tick(to) => s.(now := to)
    case Add(id, schedule) => Saved(s, s.jobs + [NewJob(ticks, id, schedule, s.now)]).(known := s.known + {id})
    case Enable(id, enabled) => Saved(s, EnableIn(ticks, s.jobs, id, enabled, s.now))
    case Remove(id) => Saved(s, RemoveFrom(s.jobs, id))
    case Start => if s.running then s else Saved(s, RecomputeAll(ticks, s.disk, s.now)).(running := true)
    case Stop => s.(running := false)
    case Check =>
      if !s.running then s
      else
        var due := DueJobs(s.jobs, s.now);
        Saved(s, ClearNext(s.jobs, IdsOf(due))).(
          inFlight := s.inFlight + multiset(IdsOf(due)), claims := s.claims + ClaimsOf(due, s.now))
    case Finish(id) => Saved(s, FinishIn(ticks, s.jobs, id, s.now)).(inFlight := s.inFlight - multiset{id})
    case Restart => s.(jobs := s.disk, running := false, inFlight := multiset{})
  }

  predicate IsRun(ticks: Ticks, s: State, steps: seq<Step>)
    decreases |steps|
  {
    steps == [] || (Enabled(s, steps[0]) && IsRun(ticks, Next(ticks, s, steps[0]), steps[1..]))
  }

  function Run(ticks: Ticks, s: State, steps: seq<Step>): State
    requires IsRun(ticks, s, steps)
    decreases |steps|
  {
    if steps == [] then s else Run(ticks, Next(ticks, s, steps[0]), steps[1..])
  }

  // ----- What the claims promise -----

  /** A claim is never early, and an "at" job is claimed at or after its time. */
  predicate Punctual(c: Claim) {
    c.due <= c.at && (c.schedule.At? ==> c.schedule.at == Time(c.due))
  }

  /** How a claim and a later claim of the same job are related. */
  predicate Spaced(earlier: Claim, later: Claim) {
    earlier.id == later.id ==>
      && earlier.schedule == later.schedule && !earlier.schedule.At?
      && (earlier.schedule.Every? ==>
            earlier.schedule.every.Time? && earlier.schedule.every.ms > 0 &&
            (later.at + earlier.schedule.every.ms <= MAX_INT64 ==> later.at >= earlier.at + earlier.schedule.every.ms))
  }

  // ----- The invariant -----

  predicate Distinct(jobs: seq<Job>) {
    forall i, k | 0 <= i < k < |jobs| :: jobs[i].id != jobs[k].id
  }

  /** The next run of a job, given one of its earlier claims. */
  predicate After(job: Job, c: Claim, now: int) {
    job.id == c.id ==>
      && job.schedule == c.schedule
      && (job.schedule.At? ==> job.next == Never && job.schedule.at.Time? && job.schedule.at.ms <= now)
      && (job.schedule.Every? && job.next.Time? ==>
            job.schedule.every.Time? &&
            (now + job.schedule.every.ms <= MAX_INT64 ==> job.next.ms >= c.at + job.schedule.every.ms))
  }

  predicate JobOk(job: Job, s: State) {
    && job.id in s.known
    && (job.next.Time? && job.schedule.At? ==> job.schedule.at == job.next)
    && (job.next.Time? && job.schedule.Every? ==> job.schedule.every.Time? && job.schedule.every.ms > 0)
    && forall k | 0 <= k < |s.claims| :: After(job, s.claims[k], s.now)
  }

  predicate ClaimsOk(s: State) {
    && (forall k | 0 <= k < |s.claims| :: Punctual(s.claims[k]) && s.claims[k].at <= s.now && s.claims[k].id in s.known)
    && (forall k, l | 0 <= k < l < |s.claims| :: Spaced(s.claims[k], s.claims[l]))
  }

  predicate JobsOk(jobs: seq<Job>, s: State) {
    Distinct(jobs) && forall k | 0 <= k < |jobs| :: JobOk(jobs[k], s)
  }

  predicate Inv(s: State) {
    s.disk == s.jobs && JobsOk(s.jobs, s) && ClaimsOk(s)
  }

  // ----- How the methods treat the jobs one by one -----

  /** The jobs of `after` come from those of `before`, in order, under `R`. */
  ghost predicate JobByJob(before: seq<Job>, after: seq<Job>, R: (Job, Job) -> bool) {
    |after| == |before| && forall k | 0 <= k < |before| :: R(before[k], after[k])
  }

  /** A job may keep its next run, lose it, or get a new one computed now. */
  predicate Rescheduled(ticks: Ticks, now: int, job: Job, job': Job) {
    && job'.id == job.id && job'.schedule == job.schedule
    && (job'.next == job.next || job'.next == Never || job'.next == ComputeNextRun(ticks, job.schedule, now))
  }

  lemma {:induction false} RecomputeReschedules(ticks: Ticks, jobs: seq<Job>, now: int)
    ensures JobByJob(jobs, RecomputeAll(ticks, jobs, now), (j, j') => Rescheduled(ticks, now, j, j'))
  {
    if jobs != [] {
      RecomputeReschedules(ticks, jobs[1..], now);
    }
  }

  lemma {:induction false} EnableReschedules(ticks: Ticks, jobs: seq<Job>, id: nat, enabled: bool, now: int)
    ensures JobByJob(jobs, EnableIn(ticks, jobs, id, enabled, now), (j, j') => Rescheduled(ticks, now, j, j'))
  {
    if jobs != [] && jobs[0].id != id {
      EnableReschedules(ticks, jobs[1..], id, enabled, now);
    }
  }

  lemma {:induction false} CompleteReschedules(ticks: Ticks, jobs: seq<Job>, id: nat, now: int)
    ensures JobByJob(jobs, CompleteIn(ticks, jobs, id, now), (j, j') => Rescheduled(ticks, now, j, j'))
  {
    if jobs != [] && jobs[0].id != id {
      CompleteReschedules(ticks, jobs[1..], id, now);
    }
  }

  lemma {:induction false} ClearedJobs(jobs: seq<Job>, ids: seq<nat>)
    ensures forall k | 0 <= k < |jobs| ::
              ClearNext(jobs, ids)[k] == if jobs[k].id in ids then jobs[k].(next := Never) else jobs[k]
  {
    if jobs != [] {
      ClearedJobs(jobs[1..], ids);
    }
  }

  lemma {:induction false} RemoveKeepsOthers(jobs: seq<Job>, id: nat)
    ensures forall k | 0 <= k < |RemoveFrom(jobs, id)| :: RemoveFrom(jobs, id)[k] in jobs
    ensures Distinct(jobs) ==> Distinct(RemoveFrom(jobs, id))
  {
    if jobs != [] {
      RemoveKeepsOthers(jobs[1..], id);
      var rest := RemoveFrom(jobs[1..], id);
      if Distinct(jobs) {
        assert forall k | 0 <= k < |jobs[1..]| :: jobs[1..][k] == jobs[k + 1];
        forall k | 0 <= k < |rest|
          ensures rest[k].id != jobs[0].id
        {
          assert rest[k] in jobs[1..];
        }
      }
    }
  }

  /** A newly computed next run lies after every claim made so far, by the job's own distance. */
  lemma ComputedRunIsLater(ticks: Ticks, job: Job, s: State, c: Claim)
    requires After(job, c, s.now) && c.at <= s.now
    ensures After(job.(next := ComputeNextRun(ticks, job.schedule, s.now)), c, s.now)
  {
  }

  lemma RescheduledIsOk(ticks: Ticks, s: State, job: Job, job': Job)
    requires JobOk(job, s) && ClaimsOk(s) && Rescheduled(ticks, s.now, job, job')
    ensures JobOk(job', s)
  {
    forall k | 0 <= k < |s.claims|
      ensures After(job', s.claims[k], s.now)
    {
      assert After(job, s.claims[k], s.now);
      ComputedRunIsLater(ticks, job, s, s.claims[k]);
    }
  }

  lemma RescheduleKeepsJobs(ticks: Ticks, s: State, jobs': seq<Job>)
    requires JobsOk(s.jobs, s) && ClaimsOk(s)
    requires JobByJob(s.jobs, jobs', (j, j') => Rescheduled(ticks, s.now, j, j'))
    ensures JobsOk(jobs', s)
  {
    forall k | 0 <= k < |jobs'|
      ensures JobOk(jobs'[k], s)
    {
      RescheduledIsOk(ticks, s, s.jobs[k], jobs'[k]);
    }
  }

  lemma SameJobsOk(s: State, s': State)
    requires JobsOk(s'.jobs, s) && s'.known >= s.known && s'.now == s.now && s'.claims == s.claims
    ensures JobsOk(s'.jobs, s')
  {
    forall k | 0 <= k < |s'.jobs|
      ensures JobOk(s'.jobs[k], s')
    {
      assert JobOk(s'.jobs[k], s);
    }
  }

  lemma TickKeepsInv(ticks: Ticks, s: State, to: int)
    requires Inv(s) && s.now <= to
    ensures Inv(s.(now := to))
  {
    var s' := s.(now := to);
    forall k | 0 <= k < |s'.jobs|
      ensures JobOk(s'.jobs[k], s')
    {
      assert JobOk(s.jobs[k], s);
      forall l | 0 <= l < |s'.claims|
        ensures After(s'.jobs[k], s'.claims[l], to)
      {
        assert After(s.jobs[k], s.claims[l], s.now);
      }
    }
  }

  lemma AddKeepsInv(ticks: Ticks, s: State, id: nat, schedule: Schedule)
    requires Inv(s) && id !in s.known
    ensures Inv(Next(ticks, s, Add(id, schedule)))
  {
    var s' := Next(ticks, s, Add(id, schedule));
    forall k | 0 <= k < |s'.jobs|
      ensures JobOk(s'.jobs[k], s')
    {
      if k < |s.jobs| {
        assert JobOk(s.jobs[k], s);
      }
    }
    forall i, k | 0 <= i < k < |s'.jobs|
      ensures s'.jobs[i].id != s'.jobs[k].id
    {
      assert JobOk(s.jobs[i], s);
    }
  }

  lemma RemoveKeepsInv(ticks: Ticks, s: State, id: nat)
    requires Inv(s)
    ensures JobsOk(RemoveFrom(s.jobs, id), s)
  {
    RemoveKeepsOthers(s.jobs, id);
    var jobs' := RemoveFrom(s.jobs, id);
    forall k | 0 <= k < |jobs'|
      ensures JobOk(jobs'[k], s)
    {
      assert jobs'[k] in s.jobs;
    }
  }

  // ----- Claiming -----

  lemma {:induction false} DueIds(jobs: seq<Job>, now: int, id: nat)
    ensures id in IdsOf(DueJobs(jobs, now)) <==> exists k :: 0 <= k < |jobs| && jobs[k].id == id && IsDue(jobs[k], now)
  {
    if jobs != [] {
      DueIds(jobs[1..], now, id);
      var rest := DueJobs(jobs[1..], now);
      if IsDue(jobs[0], now) {
        assert DueJobs(jobs, now) == [jobs[0]] + rest;
        assert ([jobs[0]] + rest)[1..] == rest;
        assert IdsOf(DueJobs(jobs, now)) == [jobs[0].id] + IdsOf(rest);
      } else {
        assert DueJobs(jobs, now) == [] + rest == rest;
      }
      if k :| 0 <= k < |jobs| && jobs[k].id == id && IsDue(jobs[k], now) {
        if k > 0 {
          assert jobs[1..][k - 1] == jobs[k];
        }
      }
      if k :| 0 <= k < |jobs[1..]| && jobs[1..][k].id == id && IsDue(jobs[1..][k], now) {
        assert jobs[k + 1] == jobs[1..][k];
      }
    }
  }

  lemma {:induction false} DueDistinct(jobs: seq<Job>, now: int)
    requires Distinct(jobs)
    ensures Distinct(DueJobs(jobs, now))
  {
    if jobs != [] {
      assert forall k | 0 <= k < |jobs[1..]| :: jobs[1..][k] == jobs[k + 1];
      DueDistinct(jobs[1..], now);
      DueHaveTimes(jobs[1..], now);
    }
  }

  /** A new claim is punctual and keeps its distance from all earlier claims. */
  lemma NewClaim(s: State, job: Job)
    requires Inv(s) && job in s.jobs && IsDue(job, s.now)
    ensures var c := ClaimOf(job, s.now);
            Punctual(c) && c.id in s.known && forall k | 0 <= k < |s.claims| :: Spaced(s.claims[k], c)
  {
    var c := ClaimOf(job, s.now);
    assert JobOk(job, s);
    forall k | 0 <= k < |s.claims|
      ensures Spaced(s.claims[k], c)
    {
      assert After(job, s.claims[k], s.now);
    }
  }

  /** The claims of one check concern different jobs, each of them well spaced from the past. */
  lemma PairIsSpaced(s: State, due: seq<Job>, claims: seq<Claim>, k: nat, l: nat)
    requires Inv(s) && Distinct(due) && claims == s.claims + ClaimsOf(due, s.now)
    requires forall i | 0 <= i < |due| :: due[i] in s.jobs && IsDue(due[i], s.now)
    requires k < l < |claims|
    ensures Spaced(claims[k], claims[l])
  {
    var n := |s.claims|;
    if n <= l {
      NewClaim(s, due[l - n]);
      assert n <= k ==> due[k - n].id != due[l - n].id;
    }
  }

  lemma ClaimIsPunctual(s: State, due: seq<Job>, claims: seq<Claim>, k: nat)
    requires Inv(s) && claims == s.claims + ClaimsOf(due, s.now)
    requires forall i | 0 <= i < |due| :: due[i] in s.jobs && IsDue(due[i], s.now)
    requires k < |claims|
    ensures Punctual(claims[k]) && claims[k].at <= s.now && claims[k].id in s.known
  {
    if |s.claims| <= k {
      NewClaim(s, due[k - |s.claims|]);
    }
  }

  lemma ClaimsAfterCheck(s: State, due: seq<Job>)
    requires Inv(s) && Distinct(due)
    requires forall k | 0 <= k < |due| :: due[k] in s.jobs && IsDue(due[k], s.now)
    ensures ClaimsOk(s.(claims := s.claims + ClaimsOf(due, s.now)))
  {
    var claims := s.claims + ClaimsOf(due, s.now);
    forall k | 0 <= k < |claims|
      ensures Punctual(claims[k]) && claims[k].at <= s.now && claims[k].id in s.known
    {
      ClaimIsPunctual(s, due, claims, k);
    }
    forall k, l | 0 <= k < l < |claims|
      ensures Spaced(claims[k], claims[l])
    {
      PairIsSpaced(s, due, claims, k, l);
    }
  }

  /** A claimed job has no next run; another job keeps its own, and its distance from the claims. */
  lemma JobAfterCheck(s: State, due: seq<Job>, job: Job, job': Job)
    requires Inv(s) && job in s.jobs
    requires forall k | 0 <= k < |due| :: due[k] in s.jobs && IsDue(due[k], s.now)
    requires (exists k :: 0 <= k < |due| && due[k].id == job.id) ==> job in due && job' == job.(next := Never)
    requires !(exists k :: 0 <= k < |due| && due[k].id == job.id) ==> job' == job
    ensures JobOk(job', s.(claims := s.claims + ClaimsOf(due, s.now)))
  {
    var s' := s.(claims := s.claims + ClaimsOf(due, s.now));
    assert JobOk(job, s);
    forall l | 0 <= l < |s'.claims|
      ensures After(job', s'.claims[l], s.now)
    {
      if l < |s.claims| {
        assert After(job, s.claims[l], s.now);
      } else {
        var d := due[l - |s.claims|];
        if d.id == job.id {
          assert job in due;
          SameIdSameJob(s.jobs, d, job);
        }
      }
    }
  }

  lemma SameIdSameJob(jobs: seq<Job>, a: Job, b: Job)
    requires Distinct(jobs) && a in jobs && b in jobs && a.id == b.id
    ensures a == b
  {
  }

  lemma {:induction false} IdsOfAt(jobs: seq<Job>, id: nat)
    ensures id in IdsOf(jobs) <==> exists k :: 0 <= k < |jobs| && jobs[k].id == id
  {
    if jobs != [] {
      IdsOfAt(jobs[1..], id);
      if k :| 0 <= k < |jobs| && jobs[k].id == id {
        if k > 0 {
          assert jobs[1..][k - 1] == jobs[k];
        }
      }
      if k :| 0 <= k < |jobs[1..]| && jobs[1..][k].id == id {
        assert jobs[k + 1].id == id;
      }
    }
  }

  lemma CheckKeepsInv(ticks: Ticks, s: State)
    requires Inv(s) && s.running
    ensures Inv(Next(ticks, s, Check))
  {
    var due := DueJobs(s.jobs, s.now);
    var ids := IdsOf(due);
    var jobs' := ClearNext(s.jobs, ids);
    var s' := Next(ticks, s, Check);
    DueHaveTimes(s.jobs, s.now);
    DueDistinct(s.jobs, s.now);
    ClearedJobs(s.jobs, ids);
    ClaimsAfterCheck(s, due);
    forall k | 0 <= k < |jobs'|
      ensures JobOk(jobs'[k], s')
    {
      var job := s.jobs[k];
      IdsOfAt(due, job.id);
      if d :| 0 <= d < |due| && due[d].id == job.id {
        SameIdSameJob(s.jobs, due[d], job);
      }
      JobAfterCheck(s, due, job, jobs'[k]);
      assert JobOk(jobs'[k], s.(claims := s.claims + ClaimsOf(due, s.now)));
    }
    assert s'.claims == s.claims + ClaimsOf(due, s.now);
  }

  lemma FinishKeepsInv(ticks: Ticks, s: State, id: nat)
    requires Inv(s)
    ensures JobsOk(FinishIn(ticks, s.jobs, id, s.now), s)
  {
    RemoveKeepsInv(ticks, s, id);
    CompleteReschedules(ticks, s.jobs, id, s.now);
    RescheduleKeepsJobs(ticks, s, CompleteIn(ticks, s.jobs, id, s.now));
  }

  lemma StepKeepsInv(ticks: Ticks, s: State, step: Step)
    requires Inv(s) && Enabled(s, step)
    ensures Inv(Next(ticks, s, step))
  {
    var s' := Next(ticks, s, step);
    match step {
      case Tick(to) => TickKeepsInv(ticks, s, to);
      case Add(id, schedule) => AddKeepsInv(ticks, s, id, schedule);
      case Enable(id, enabled) =>
        EnableReschedules(ticks, s.jobs, id, enabled, s.now);
        RescheduleKeepsJobs(ticks, s, s'.jobs);
        SameJobsOk(s, s');
      case Remove(id) =>
        RemoveKeepsInv(ticks, s, id);
        SameJobsOk(s, s');
      case Start =>
        if !s.running {
          RecomputeReschedules(ticks, s.jobs, s.now);
          RescheduleKeepsJobs(ticks, s, s'.jobs);
          SameJobsOk(s, s');
        }
      case Stop => SameJobsOk(s, s');
      case Restart => SameJobsOk(s, s');
      case Check =>
        if s.running {
          CheckKeepsInv(ticks, s);
        }
      case Finish(id) =>
        FinishKeepsInv(ticks, s, id);
        SameJobsOk(s, s');
    }
  }

  lemma {:induction false} RunKeepsInv(ticks: Ticks, s: State, steps: seq<Step>)
    requires Inv(s) && IsRun(ticks, s, steps)
    ensures Inv(Run(ticks, s, steps))
    decreases |steps|
  {
    if steps != [] {
      StepKeepsInv(ticks, s, steps[0]);
      RunKeepsInv(ticks, Next(ticks, s, steps[0]), steps[1..]);
    }
  }

  // ----- Over every run -----

  /**
   Over every run of adding, enabling, removing, starting, stopping, checking, finishing and dying,
   in any order: no claim is early, an "at" job is claimed at most once, and two claims of an
   "every" job are at least its interval apart, unless the interval overflows the clock's 64 bits.
   */
  lemma ClaimsArePunctualAndSpaced(ticks: Ticks, steps: seq<Step>, k: nat, l: nat)
    requires IsRun(ticks, INITIAL, steps)
    ensures var claims := Run(ticks, INITIAL, steps).claims;
            && (k < |claims| ==> Punctual(claims[k]))
            && (k < l < |claims| && claims[k].id == claims[l].id ==>
                  && claims[k].schedule == claims[l].schedule && !claims[k].schedule.At?
                  && (claims[k].schedule.Every? ==>
                        var every := claims[k].schedule.every;
                        && every.Time? && every.ms > 0
                        && (claims[l].at + every.ms <= MAX_INT64 ==> claims[l].at >= claims[k].at + every.ms)))
  {
    RunKeepsInv(ticks, INITIAL, steps);
    var s := Run(ticks, INITIAL, steps);
    assert k < l < |s.claims| ==> Spaced(s.claims[k], s.claims[l]);
  }

  /**
   An interval that overflows is due at once, every time: from any time at which it does, the job is
   claimed twice at the same moment.
   */
  lemma OverflowingIntervalExample(ticks: Ticks, now: int, every: int)
    requires 0 <= now <= MAX_INT64 && 0 < every <= MAX_INT64
    requires now + every > MAX_INT64
    ensures var steps := [Tick(now), Start, Add(0, Every(Time(every))), Check, Finish(0), Check];
            && IsRun(ticks, INITIAL, steps) && Run(ticks, INITIAL, steps).now == now
            && var claims := Run(ticks, INITIAL, steps).claims;
               |claims| == 2 && claims[0] == claims[1] && claims[0].at == now && claims[0].schedule == Every(Time(every))
  {
    var schedule := Every(Time(every));
    var s1 := INITIAL.(now := now);
    var s2 := s1.(running := true);
    DueAgain(ticks, now, every, []);
    DueAgain(ticks, now, every, [ClaimOf(NewJob(ticks, 0, schedule, now), now)]);
    var s3 := Due(ticks, now, every, []);
    var s4 := Claimed(ticks, now, every, []);
    var s5 := Due(ticks, now, every, s4.claims);
    var s6 := Claimed(ticks, now, every, s4.claims);
    ClaimedTwice(ticks, s3, s4, s5, s6);
    AddedIsDue(ticks, now, every);
    RunOne(ticks, s2, Add(0, schedule), [Check, Finish(0), Check], s3);
    RunOne(ticks, s1, Start, [Add(0, schedule), Check, Finish(0), Check], s2);
    RunOne(ticks, INITIAL, Tick(now), [Start, Add(0, schedule), Check, Finish(0), Check], s1);
  }

  /** The claims of each job with this interval are that far apart. */
  predicate KeptApart(claims: seq<Claim>, every: int) {
    forall k, l | 0 <= k < l < |claims| :: PairKeptApart(claims[k], claims[l], every)
  }

  predicate PairKeptApart(earlier: Claim, later: Claim, every: int) {
    earlier.id == later.id && earlier.schedule == Every(Time(every)) ==> later.at >= earlier.at + every
  }

  /** In a run up to `horizon`. */
  predicate RunKeepsApart(ticks: Ticks, every: int, horizon: int, steps: seq<Step>)
    requires IsRun(ticks, INITIAL, steps)
  {
    var s := Run(ticks, INITIAL, steps);
    s.now <= horizon ==> KeptApart(s.claims, every)
  }

  lemma SmallIntervalKeepsApart(ticks: Ticks, every: int, horizon: int, steps: seq<Step>)
    requires 0 < every && horizon + every <= MAX_INT64 && IsRun(ticks, INITIAL, steps)
    ensures RunKeepsApart(ticks, every, horizon, steps)
  {
    RunKeepsInv(ticks, INITIAL, steps);
    var s := Run(ticks, INITIAL, steps);
    if s.now <= horizon {
      forall k, l | 0 <= k < l < |s.claims|
        ensures PairKeptApart(s.claims[k], s.claims[l], every)
      {
        assert Spaced(s.claims[k], s.claims[l]) && s.claims[l].at <= s.now;
      }
    }
  }

  /**
   Up to a time, an interval keeps the claims of its jobs apart in all runs if and only if the two add
   up within 64 bits.
   */
  lemma SpacedIff(ticks: Ticks, every: int, horizon: int)
    requires 0 < every <= MAX_INT64 && 0 <= horizon <= MAX_INT64
    ensures (forall steps | IsRun(ticks, INITIAL, steps) :: RunKeepsApart(ticks, every, horizon, steps)) <==>
            horizon + every <= MAX_INT64
  {
    if horizon + every <= MAX_INT64 {
      forall steps | IsRun(ticks, INITIAL, steps)
        ensures RunKeepsApart(ticks, every, horizon, steps)
      {
        SmallIntervalKeepsApart(ticks, every, horizon, steps);
      }
    } else {
      var steps := [Tick(horizon), Start, Add(0, Every(Time(every))), Check, Finish(0), Check];
      OverflowingIntervalExample(ticks, horizon, every);
      var claims := Run(ticks, INITIAL, steps).claims;
      assert !PairKeptApart(claims[0], claims[1], every);
      assert !RunKeepsApart(ticks, every, horizon, steps);
    }
  }

  lemma ClaimedTwice(ticks: Ticks, s3: State, s4: State, s5: State, s6: State)
    requires Next(ticks, s3, Check) == s4 && Enabled(s4, Finish(0)) && Next(ticks, s4, Finish(0)) == s5
    requires Next(ticks, s5, Check) == s6
    ensures IsRun(ticks, s3, [Check, Finish(0), Check]) && Run(ticks, s3, [Check, Finish(0), Check]) == s6
  {
    RunOne(ticks, s5, Check, [], s6);
    RunOne(ticks, s4, Finish(0), [Check], s5);
    RunOne(ticks, s3, Check, [Finish(0), Check], s4);
  }

  /** The running service with one such job, due at once. */
  function Due(ticks: Ticks, now: int, every: int, claims: seq<Claim>): State {
    var job := NewJob(ticks, 0, Every(Time(every)), now);
    State([job], [job], true, now, {0}, multiset{}, claims)
  }

  /** And after it has been claimed. */
  function Claimed(ticks: Ticks, now: int, every: int, claims: seq<Claim>): State {
    var job := NewJob(ticks, 0, Every(Time(every)), now);
    var claimed := job.(next := Never);
    State([claimed], [claimed], true, now, {0}, multiset{0}, claims + [ClaimOf(job, now)])
  }

  lemma AddedIsDue(ticks: Ticks, now: int, every: int)
    ensures Next(ticks, INITIAL.(now := now, running := true), Add(0, Every(Time(every)))) == Due(ticks, now, every, [])
  {
  }

  lemma DueAgain(ticks: Ticks, now: int, every: int, claims: seq<Claim>)
    requires 0 <= now <= MAX_INT64 && 0 < every <= MAX_INT64 && now + every > MAX_INT64
    ensures Next(ticks, Due(ticks, now, every, claims), Check) == Claimed(ticks, now, every, claims)
    ensures Enabled(Claimed(ticks, now, every, claims), Finish(0))
    ensures Next(ticks, Claimed(ticks, now, every, claims), Finish(0)) ==
              Due(ticks, now, every, Claimed(ticks, now, every, claims).claims)
  {
    OneDue(NewJob(ticks, 0, Every(Time(every)), now), now);
  }

  lemma OneDue(job: Job, now: int)
    requires IsDue(job, now)
    ensures DueJobs([job], now) == [job] && IdsOf([job]) == [job.id]
    ensures ClearNext([job], [job.id]) == [job.(next := Never)]
    ensures ClaimsOf([job], now) == [ClaimOf(job, now)]
  {
    assert [job][1..] == [];
  }

  lemma RunOne(ticks: Ticks, s: State, step: Step, rest: seq<Step>, s': State)
    requires Enabled(s, step) && Next(ticks, s, step) == s' && IsRun(ticks, s', rest)
    ensures IsRun(ticks, s, [step] + rest) && Run(ticks, s, [step] + rest) == Run(ticks, s', rest)
  {
    assert ([step] + rest)[1..] == rest;
  }
}
