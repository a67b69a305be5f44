/** The cron service (`pkg/cron/service.go`): its store, its methods, and the claims of its jobs. */
module Cron {

  datatype Moment = Never | Time(ms: int)

  /** `Expr` is a cron expression, known by a number; `Unknown` is any other kind. */
  datatype Schedule = At(at: Moment) | Every(every: Moment) | Expr(expr: nat) | Unknown

  datatype Job = Job(id: nat, schedule: Schedule, enabled: bool, next: Moment, deleteAfterRun: bool)

  /** The foreign cron-expression library: the next tick of an expression after a time. */
  type Ticks = (nat, int) -> Moment

  const MAX_INT64 := 0x7FFF_FFFF_FFFF_FFFF

  /** The sum of two 64-bit numbers of which `b` is positive. */
  function AddInt64(a: int, b: int): int {
    if a + b > MAX_INT64 then a + b - 0x1_0000_0000_0000_0000 else a + b
  }

  function ComputeNextRun(ticks: Ticks, schedule: Schedule, now: int): Moment {
    match schedule
    case At(Time(at)) => if at > now then Time(at) else Never
    case At(Never) => Never
    case Every(Time(every)) => if every <= 0 then Never else Time(AddInt64(now, every))
    case Every(Never) => Never
    case Expr(expr) => ticks(expr, now)
    case Unknown => Never
  }

  predicate IsDue(job: Job, now: int) {
    job.enabled && job.next.Time? && job.next.ms <= now
  }

  // ----- What the methods do to the jobs -----

  function NewJob(ticks: Ticks, id: nat, schedule: Schedule, now: int): Job {
    Job(id, schedule, true, ComputeNextRun(ticks, schedule, now), schedule.At?)
  }

  function Recomputed(ticks: Ticks, job: Job, now: int): Job {
    if job.enabled then job.(next := ComputeNextRun(ticks, job.schedule, now)) else job
  }

  function RecomputeAll(ticks: Ticks, jobs: seq<Job>, now: int): (r: seq<Job>)
    ensures |r| == |jobs|
  {
    if jobs == [] then [] else [Recomputed(ticks, jobs[0], now)] + RecomputeAll(ticks, jobs[1..], now)
  }

  function Toggled(ticks: Ticks, job: Job, enabled: bool, now: int): Job {
    job.(enabled := enabled, next := if enabled then ComputeNextRun(ticks, job.schedule, now) else Never)
  }

  /** The first job with this id is enabled or disabled. */
  function EnableIn(ticks: Ticks, jobs: seq<Job>, id: nat, enabled: bool, now: int): seq<Job> {
    if jobs == [] then []
    else if jobs[0].id == id then [Toggled(ticks, jobs[0], enabled, now)] + jobs[1..]
    else [jobs[0]] + EnableIn(ticks, jobs[1..], id, enabled, now)
  }

  function RemoveFrom(jobs: seq<Job>, id: nat): seq<Job> {
    if jobs == [] then []
    else (if jobs[0].id != id then [jobs[0]] else []) + RemoveFrom(jobs[1..], id)
  }

  function DueJobs(jobs: seq<Job>, now: int): seq<Job> {
    if jobs == [] then []
    else (if IsDue(jobs[0], now) then [jobs[0]] else []) + DueJobs(jobs[1..], now)
  }

  function IdsOf(jobs: seq<Job>): (ids: seq<nat>)
    ensures |ids| == |jobs|
  {
    if jobs == [] then [] else [jobs[0].id] + IdsOf(jobs[1..])
  }

  /** The jobs with these ids lose their next run. */
  function ClearNext(jobs: seq<Job>, ids: seq<nat>): (r: seq<Job>)
    ensures |r| == |jobs|
  {
    if jobs == [] then []
    else [if jobs[0].id in ids then jobs[0].(next := Never) else jobs[0]] + ClearNext(jobs[1..], ids)
  }

  function Completed(ticks: Ticks, job: Job, now: int): Job {
    if job.schedule.At? then job.(enabled := false, next := Never)
    else job.(next := ComputeNextRun(ticks, job.schedule, now))
  }

  /** The first job with this id has run. */
  function CompleteIn(ticks: Ticks, jobs: seq<Job>, id: nat, now: int): seq<Job> {
    if jobs == [] then []
    else if jobs[0].id == id then [Completed(ticks, jobs[0], now)] + jobs[1..]
    else [jobs[0]] + CompleteIn(ticks, jobs[1..], id, now)
  }

  function Find(jobs: seq<Job>, id: nat): (k: nat)
    ensures k <= |jobs|
    ensures k < |jobs| ==> jobs[k].id == id
  {
    if jobs == [] || jobs[0].id == id then 0 else 1 + Find(jobs[1..], id)
  }

  function FinishIn(ticks: Ticks, jobs: seq<Job>, id: nat, now: int): seq<Job> {
    var k := Find(jobs, id);
    if k == |jobs| then jobs
    else if jobs[k].schedule.At? && jobs[k].deleteAfterRun then RemoveFrom(jobs, id)
    else CompleteIn(ticks, jobs, id, now)
  }

  // ----- The code -----

  /** The service. `disk` is what the last save wrote; the clock is read once per call. */
  class CronService {
    var jobs: seq<Job>
    var disk: seq<Job>
    var running: bool
    const ticks: Ticks

    constructor (ticks: Ticks, disk: seq<Job>)
      ensures this.ticks == ticks && jobs == this.disk == disk && !running
    {
      this.ticks, this.jobs, this.disk, this.running := ticks, disk, disk, false;
    }

    method RecomputeNextRuns(now: int)
      modifies this`jobs
      ensures jobs == RecomputeAll(ticks, old(jobs), now)
    {
      for i := 0 to |jobs|
        invariant |jobs| == |old(jobs)| && jobs[i..] == old(jobs)[i..]
        invariant jobs[..i] + RecomputeAll(ticks, jobs[i..], now) == RecomputeAll(ticks, old(jobs), now)
      {
        var job := jobs[i];
        assert jobs[i..][1..] == jobs[i + 1..];
        AppendOne(jobs[..i], Recomputed(ticks, job, now), RecomputeAll(ticks, jobs[i + 1..], now));
        if job.enabled {
          job := job.(next := ComputeNextRun(ticks, job.schedule, now));
        }
        Replaced(jobs, i, job);
        jobs := jobs[i := job];
      }
      assert jobs[..|jobs|] == jobs && jobs[|jobs|..] == [];
      assert jobs + [] == jobs;
    }

    method Start(now: int)
      modifies this
      ensures running
      ensures jobs == if old(running) then old(jobs) else RecomputeAll(ticks, old(disk), now)
      ensures disk == if old(running) then old(disk) else jobs
    {
      if running {
        return;
      }
      jobs := disk;
      RecomputeNextRuns(now);
      disk := jobs;
      running := true;
    }

    method Stop()
      modifies this`running
      ensures !running
    {
      running := false;
    }

    /** Claims the due jobs: their ids, in order; their next run is cleared before they run. */
    method CheckJobs(now: int) returns (dueJobIDs: seq<nat>)
      modifies this`jobs, this`disk
      ensures !running ==> dueJobIDs == [] && jobs == old(jobs) && disk == old(disk)
      ensures running ==> dueJobIDs == IdsOf(DueJobs(old(jobs), now)) && jobs == ClearNext(old(jobs), dueJobIDs) && disk == jobs
    {
      if !running {
        return [];
      }
      dueJobIDs := CollectDue(jobs, now);
      jobs := ClearClaimed(jobs, dueJobIDs);
      disk := jobs;
    }

    method AddJob(now: int, id: nat, schedule: Schedule)
      modifies this`jobs, this`disk
      ensures jobs == disk == old(jobs) + [NewJob(ticks, id, schedule, now)]
    {
      var deleteAfterRun := schedule.At?;
      jobs := jobs + [Job(id, schedule, true, ComputeNextRun(ticks, schedule, now), deleteAfterRun)];
      disk := jobs;
    }

    method EnableJob(now: int, id: nat, enabled: bool) returns (found: bool)
      modifies this`jobs, this`disk
      ensures found == (Find(old(jobs), id) < |old(jobs)|)
      ensures jobs == EnableIn(ticks, old(jobs), id, enabled, now)
      ensures disk == if found then jobs else old(disk)
    {
      var k := FindJob(jobs, id);
      EnableAtFound(ticks, jobs, id, enabled, now);
      found := k < |jobs|;
      if found {
        var job := jobs[k].(enabled := enabled);
        if enabled {
          job := job.(next := ComputeNextRun(ticks, job.schedule, now));
        } else {
          job := job.(next := Never);
        }
        jobs := jobs[k := job];
        disk := jobs;
      }
    }

    method RemoveJob(id: nat) returns (removed: bool)
      modifies this`jobs, this`disk
      ensures jobs == RemoveFrom(old(jobs), id) && removed == (|jobs| < |old(jobs)|)
      ensures disk == if removed then jobs else old(disk)
    {
      var before := |jobs|;
      jobs := WithoutJob(jobs, id);
      removed := |jobs| < before;
      if removed {
        disk := jobs;
      }
    }

    /** The update after a claimed job has run. */
    method FinishJob(now: int, id: nat)
      modifies this`jobs, this`disk
      ensures jobs == FinishIn(ticks, old(jobs), id, now)
      ensures disk == if Find(old(jobs), id) < |old(jobs)| then jobs else old(disk)
    {
      var k := FindJob(jobs, id);
      if k == |jobs| {
        return;
      }
      var job := jobs[k];
      if job.schedule.At? {
        if job.deleteAfterRun {
          var removed := RemoveJob(id);
        } else {
          CompleteAtFound(ticks, jobs, id, now);
          jobs := jobs[k := job.(enabled := false, next := Never)];
        }
      } else {
        CompleteAtFound(ticks, jobs, id, now);
        jobs := jobs[k := job.(next := ComputeNextRun(ticks, job.schedule, now))];
      }
      disk := jobs;
    }
  }

  lemma AppendOne(done: seq<Job>, job: Job, rest: seq<Job>)
    ensures done + ([job] + rest) == (done + [job]) + rest
  {
  }

  lemma Replaced(jobs: seq<Job>, i: nat, job: Job)
    requires i < |jobs|
    ensures jobs[i := job][..i + 1] == jobs[..i] + [job] && jobs[i := job][i + 1..] == jobs[i + 1..]
  {
  }

  method CollectDue(jobs: seq<Job>, now: int) returns (ids: seq<nat>)
    ensures ids == IdsOf(DueJobs(jobs, now))
  {
    ids := [];
    var i := 0;
    ghost var due: seq<Job> := [];
    assert jobs[0..] == jobs;
    while i < |jobs|
      invariant 0 <= i <= |jobs| && ids == IdsOf(due)
      invariant due + DueJobs(jobs[i..], now) == DueJobs(jobs, now)
    {
      assert jobs[i..][1..] == jobs[i + 1..];
      if IsDue(jobs[i], now) {
        AppendOne(due, jobs[i], DueJobs(jobs[i + 1..], now));
        IdsOfAppend(due, jobs[i]);
        ids := ids + [jobs[i].id];
        due := due + [jobs[i]];
      } else {
        assert [] + DueJobs(jobs[i + 1..], now) == DueJobs(jobs[i + 1..], now);
      }
      i := i + 1;
    }
    assert jobs[i..] == [] && due + [] == due;
  }

  lemma {:induction false} IdsOfAppend(jobs: seq<Job>, job: Job)
    ensures IdsOf(jobs + [job]) == IdsOf(jobs) + [job.id]
  {
    if jobs != [] {
      assert (jobs + [job])[1..] == jobs[1..] + [job];
      IdsOfAppend(jobs[1..], job);
    }
  }

  method ClearClaimed(jobs: seq<Job>, ids: seq<nat>) returns (cleared: seq<Job>)
    ensures cleared == ClearNext(jobs, ids)
  {
    cleared := [];
    assert jobs[0..] == jobs;
    for i := 0 to |jobs|
      invariant cleared + ClearNext(jobs[i..], ids) == ClearNext(jobs, ids)
    {
      assert jobs[i..][1..] == jobs[i + 1..];
      var job := jobs[i];
      if job.id in ids {
        job := job.(next := Never);
      }
      AppendOne(cleared, job, ClearNext(jobs[i + 1..], ids));
      cleared := cleared + [job];
    }
    assert jobs[|jobs|..] == [] && cleared + [] == cleared;
  }

  method WithoutJob(jobs: seq<Job>, id: nat) returns (kept: seq<Job>)
    ensures kept == RemoveFrom(jobs, id)
  {
    kept := [];
    assert jobs[0..] == jobs;
    for i := 0 to |jobs|
      invariant kept + RemoveFrom(jobs[i..], id) == RemoveFrom(jobs, id)
    {
      assert jobs[i..][1..] == jobs[i + 1..];
      if jobs[i].id != id {
        AppendOne(kept, jobs[i], RemoveFrom(jobs[i + 1..], id));
        kept := kept + [jobs[i]];
      } else {
        assert [] + RemoveFrom(jobs[i + 1..], id) == RemoveFrom(jobs[i + 1..], id);
      }
    }
    assert jobs[|jobs|..] == [] && kept + [] == kept;
  }

  method FindJob(jobs: seq<Job>, id: nat) returns (k: nat)
    ensures k == Find(jobs, id)
  {
    k := 0;
    assert jobs[0..] == jobs;
    while k < |jobs| && jobs[k].id != id
      invariant k <= |jobs| && k + Find(jobs[k..], id) == Find(jobs, id)
    {
      assert jobs[k..][1..] == jobs[k + 1..];
      k := k + 1;
    }
  }

  lemma {:induction false} EnableAtFound(ticks: Ticks, jobs: seq<Job>, id: nat, enabled: bool, now: int)
    ensures var k := Find(jobs, id);
            EnableIn(ticks, jobs, id, enabled, now) ==
              if k < |jobs| then jobs[k := Toggled(ticks, jobs[k], enabled, now)] else jobs
  {
    if jobs != [] && jobs[0].id != id {
      EnableAtFound(ticks, jobs[1..], id, enabled, now);
    }
  }

  lemma {:induction false} CompleteAtFound(ticks: Ticks, jobs: seq<Job>, id: nat, now: int)
    ensures var k := Find(jobs, id);
            CompleteIn(ticks, jobs, id, now) ==
              if k < |jobs| then jobs[k := Completed(ticks, jobs[k], now)] else jobs
  {
    if jobs != [] && jobs[0].id != id {
      CompleteAtFound(ticks, jobs[1..], id, now);
    }
  }
}
