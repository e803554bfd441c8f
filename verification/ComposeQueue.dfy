/** The delivery-compose job queue: leased claims, bounded retries and terminal states, with any
    number of workers, any of which may stop for good or overrun its lease. */
module ComposeQueue {
  import opened Common

  const LOCK_TTL: int := 60_000
  const RETRY_BACKOFF: seq<int> := [15_000, 60_000, 300_000, 900_000, 3_600_000]

  datatype JobStatus = Queued | Running | Succeeded | Failed | Cancelled

  datatype Job = Job(
    status: JobStatus,
    priority: int,
    runAfter: int,
    attempts: nat,
    maxAttempts: nat,
    lockedBy: Option<Id>,
    lockedUntil: Option<int>,
    wellFormed: bool,
    revision: nat)

  /** A worker processing a job: the attempt it took and when its lease ends. */
  datatype Run = Run(job: Id, attempt: nat, maxAttempts: nat, lease: int)

  /** What happened to a job so far; `retried` holds the attempts that put it back in the queue. */
  datatype Tally = Tally(claims: nat, expiries: nat, retried: set<nat>)

  datatype State = State(now: int, jobs: map<Id, Job>, runs: map<Id, Run>, tallies: map<Id, Tally>)

  /** How a processing ends: the payload does not parse, the delivery is gone, the report was
      composed, or something threw. */
  datatype Outcome = Malformed | Missing | Composed | Threw

  /** A claim passes over the rows that other transactions have locked (`SKIP LOCKED`, on Postgres). */
  datatype Step =
    | Tick(d: nat)
    | Enqueue(j: Id, job: Job)
    | Claim(w: Id, skipped: set<Id>, choice: Option<Id>)
    | Finish(w: Id, outcome: Outcome)
    | Crash(w: Id)

  predicate Terminal(status: JobStatus) { status in {Succeeded, Failed, Cancelled} }

  predicate Stale(job: Job, now: int) {
    job.status == Running && job.lockedUntil.Some? && job.lockedUntil.value < now
  }

  function Unlocked(job: Job, status: JobStatus): Job {
    job.(status := status, lockedBy := None, lockedUntil := None, revision := job.revision + 1)
  }

  /** Stale locks are put back first. */
  function Reclaimed(job: Job, now: int): Job {
    if Stale(job, now) then Unlocked(job, Queued) else job
  }

  function ReclaimAll(jobs: map<Id, Job>, now: int): map<Id, Job> {
    map j | j in jobs :: Reclaimed(jobs[j], now)
  }

  predicate Eligible(job: Job, now: int) {
    job.status == Queued && job.runAfter <= now
  }

  /** `ORDER BY priority, run_after`. */
  predicate NotAfter(a: Job, b: Job) {
    a.priority < b.priority || (a.priority == b.priority && a.runAfter <= b.runAfter)
  }

  predicate IsNext(jobs: map<Id, Job>, now: int, choice: Option<Id>) {
    match choice
    case None => forall j | j in jobs :: !Eligible(jobs[j], now)
    case Some(j) =>
      && j in jobs && Eligible(jobs[j], now)
      && forall k | k in jobs && Eligible(jobs[k], now) :: NotAfter(jobs[j], jobs[k])
  }

  function Locked(job: Job, w: Id, now: int): Job {
    job.(status := Running, attempts := job.attempts + 1, lockedBy := Some(w), lockedUntil := Some(now + LOCK_TTL),
         revision := job.revision + 1)
  }

  function Delay(attempt: nat): int
    requires attempt >= 1
  {
    RETRY_BACKOFF[if attempt - 1 < |RETRY_BACKOFF| - 1 then attempt - 1 else |RETRY_BACKOFF| - 1]
  }

  /** The write at the end of a processing goes by the job's id alone. */
  function Ended(job: Job, run: Run, outcome: Outcome, now: int): Job
    requires run.attempt >= 1
  {
    match outcome
    case Malformed => Unlocked(job, Failed)
    case Missing => Unlocked(job, Cancelled)
    case Composed => Unlocked(job, Succeeded)
    case Threw =>
      if run.attempt >= run.maxAttempts then Unlocked(job, Failed)
      else Unlocked(job, Queued).(runAfter := now + Delay(run.attempt))
  }

  predicate Enabled(s: State, step: Step) {
    match step
    case Tick(_) => true
    case Enqueue(j, job) =>
      j !in s.jobs && job.status == Queued && job.attempts == 0 && job.lockedBy.None? && job.lockedUntil.None?
    case Claim(w, skipped, choice) => w !in s.runs && IsNext(ReclaimAll(s.jobs, s.now) - skipped, s.now, choice)
    case Finish(w, outcome) =>
      && w in s.runs && s.runs[w].job in s.jobs && s.runs[w].attempt >= 1
      && (outcome == Malformed <==> !s.jobs[s.runs[w].job].wellFormed)
    case Crash(w) => w in s.runs
  }

  function Expiring(s: State): map<Id, Tally> {
    map j | j in s.tallies ::
      if j in s.jobs && Stale(s.jobs[j], s.now) then s.tallies[j].(expiries := s.tallies[j].expiries + 1)
      else s.tallies[j]
  }

  function TallyOf(tallies: map<Id, Tally>, j: Id): Tally {
    if j in tallies then tallies[j] else Tally(0, 0, {})
  }

  function Next(s: State, step: Step): State
    requires Enabled(s, step)
  {
    match step
    case Tick(d) => s.(now := s.now + d)
    case Enqueue(j, job) => s.(jobs := s.jobs[j := job], tallies := s.tallies[j := Tally(0, 0, {})])
    case Claim(w, _, choice) =>
      var jobs, tallies := ReclaimAll(s.jobs, s.now), Expiring(s);
      if choice.None? then s.(jobs := jobs, tallies := tallies)
      else
        var j := choice.value;
        var job, t := Locked(jobs[j], w, s.now), TallyOf(tallies, j);
        s.(jobs := jobs[j := job],
           runs := s.runs[w := Run(j, job.attempts, job.maxAttempts, s.now + LOCK_TTL)],
           tallies := tallies[j := t.(claims := t.claims + 1)])
    case Finish(w, outcome) =>
      var run := s.runs[w];
      var job, t := Ended(s.jobs[run.job], run, outcome, s.now), TallyOf(s.tallies, run.job);
      s.(jobs := s.jobs[run.job := job],
         runs := s.runs - {w},
         tallies := if job.status != Queued then s.tallies
                    else s.tallies[run.job := t.(retried := t.retried + {run.attempt})])
    case Crash(w) => s.(runs := s.runs - {w})
  }

  /** A processing that ends does so before its lease does. */
  predicate OnTime(s: State, step: Step) {
    step.Finish? && step.w in s.runs ==> s.now <= s.runs[step.w].lease
  }

  // ---- how often a job is claimed, in every run ------------------------------------------

  function AtLeastOne(n: nat): nat { if n == 0 then 1 else n }

  /** A claim takes the job out of the queue, where only its creation, an expiry or a retry puts it;
      each attempt below the maximum retries at most once. */
  ghost predicate JobCounted(job: Job, t: Tally) {
    && (job.status == Running <==> job.lockedUntil.Some?) && (job.status == Running <==> job.lockedBy.Some?)
    && t.claims == job.attempts
    && t.claims + (if job.status == Queued then 1 else 0) <= 1 + t.expiries + |t.retried|
    && forall k | k in t.retried :: 1 <= k <= job.attempts && k < job.maxAttempts
  }

  ghost predicate RunCounted(s: State, run: Run) {
    && run.job in s.jobs && run.job in s.tallies && 1 <= run.attempt <= s.jobs[run.job].attempts
    && run.maxAttempts == s.jobs[run.job].maxAttempts && run.attempt !in s.tallies[run.job].retried
    && run.lease <= s.now + LOCK_TTL
  }

  /** What holds whether or not processings end in time. */
  ghost predicate Counted(s: State) {
    && s.tallies.Keys == s.jobs.Keys
    && (forall j | j in s.jobs :: JobCounted(s.jobs[j], s.tallies[j]))
    && (forall w | w in s.runs :: RunCounted(s, s.runs[w]))
    && (forall w, v | w in s.runs && v in s.runs && w != v && s.runs[w].job == s.runs[v].job ::
          s.runs[w].attempt != s.runs[v].attempt)
  }

  lemma NextIsThere(jobs: map<Id, Job>, now: int, choice: Option<Id>)
    requires IsNext(jobs, now, choice)
    ensures choice.Some? ==> choice.value in jobs && Eligible(jobs[choice.value], now)
  {
  }

  lemma ReclaimCounted(job: Job, t: Tally, now: int)
    requires JobCounted(job, t)
    ensures JobCounted(Reclaimed(job, now), if Stale(job, now) then t.(expiries := t.expiries + 1) else t)
  {
  }

  lemma LockCounted(job: Job, t: Tally, w: Id, now: int)
    requires JobCounted(job, t) && job.status == Queued
    ensures JobCounted(Locked(job, w, now), t.(claims := t.claims + 1))
  {
  }

  lemma EndCounted(job: Job, t: Tally, run: Run, outcome: Outcome, now: int)
    requires JobCounted(job, t) && 1 <= run.attempt <= job.attempts && run.maxAttempts == job.maxAttempts
    requires run.attempt !in t.retried
    ensures var ended := Ended(job, run, outcome, now);
            JobCounted(ended, if ended.status == Queued then t.(retried := t.retried + {run.attempt}) else t)
  {
    hide Delay;
  }

  lemma NewJobCounted(job: Job)
    requires job.status == Queued && job.attempts == 0 && job.lockedBy.None? && job.lockedUntil.None?
    ensures JobCounted(job, Tally(0, 0, {}))
  {
  }

  lemma StepCountsJob(s: State, step: Step, j: Id)
    requires Counted(s) && Enabled(s, step) && j in Next(s, step).jobs
    ensures var t := Next(s, step); j in t.tallies && JobCounted(t.jobs[j], t.tallies[j])
  {
    hide IsNext, JobCounted, Reclaimed, Stale, Locked, Ended;
    match step {
      case Enqueue(k, job) => NewJobCounted(job);
      case Claim(w, skipped, choice) =>
        NextIsThere(ReclaimAll(s.jobs, s.now) - skipped, s.now, choice);
        ReclaimCounted(s.jobs[j], s.tallies[j], s.now);
        if choice == Some(j) {
          LockCounted(Reclaimed(s.jobs[j], s.now), Expiring(s)[j], w, s.now);
        }
      case Finish(w, outcome) =>
        var run := s.runs[w];
        assert RunCounted(s, run);
        EndCounted(s.jobs[run.job], s.tallies[run.job], run, outcome, s.now);
      case _ => {}
    }
  }

  lemma EndedAttempts(job: Job, run: Run, outcome: Outcome, now: int)
    requires run.attempt >= 1
    ensures var e := Ended(job, run, outcome, now); e.attempts == job.attempts && e.maxAttempts == job.maxAttempts
  {
  }

  lemma ClaimedAttempts(job: Job, t: Tally, w: Id, now: int)
    requires JobCounted(job, t)
    ensures var r := Reclaimed(job, now);
            && r.attempts == job.attempts && r.maxAttempts == job.maxAttempts
            && Locked(r, w, now).attempts == job.attempts + 1 && Locked(r, w, now).maxAttempts == job.maxAttempts
            && job.attempts + 1 !in t.retried
  {
  }

  lemma ClaimCountsRun(s: State, v: Id, skipped: set<Id>, choice: Option<Id>, w: Id)
    requires Counted(s) && Enabled(s, Claim(v, skipped, choice)) && w in Next(s, Claim(v, skipped, choice)).runs
    ensures var t := Next(s, Claim(v, skipped, choice)); RunCounted(t, t.runs[w])
  {
    hide IsNext, JobCounted, Reclaimed, Locked, Stale;
    NextIsThere(ReclaimAll(s.jobs, s.now) - skipped, s.now, choice);
    forall j | j in s.jobs {
      ClaimedAttempts(s.jobs[j], s.tallies[j], v, s.now);
    }
    if w in s.runs {
      assert RunCounted(s, s.runs[w]);
    }
  }

  lemma FinishCountsRun(s: State, v: Id, outcome: Outcome, w: Id)
    requires Counted(s) && Enabled(s, Finish(v, outcome)) && w in Next(s, Finish(v, outcome)).runs
    ensures var t := Next(s, Finish(v, outcome)); RunCounted(t, t.runs[w])
  {
    hide JobCounted, Ended;
    assert RunCounted(s, s.runs[v]) && RunCounted(s, s.runs[w]);
    EndedAttempts(s.jobs[s.runs[v].job], s.runs[v], outcome, s.now);
  }

  lemma StepCountsRun(s: State, step: Step, w: Id)
    requires Counted(s) && Enabled(s, step) && w in Next(s, step).runs
    ensures var t := Next(s, step); RunCounted(t, t.runs[w])
  {
    hide IsNext, JobCounted, ReclaimAll, Expiring, Locked, Ended;
    match step {
      case Finish(v, outcome) => FinishCountsRun(s, v, outcome, w);
      case Claim(v, skipped, choice) => ClaimCountsRun(s, v, skipped, choice, w);
      case _ => { assert RunCounted(s, s.runs[w]); }
    }
  }

  lemma StepKeepsAttemptsApart(s: State, step: Step, w: Id, v: Id)
    requires Counted(s) && Enabled(s, step)
    requires var t := Next(s, step); w in t.runs && v in t.runs && w != v && t.runs[w].job == t.runs[v].job
    ensures Next(s, step).runs[w].attempt != Next(s, step).runs[v].attempt
  {
    hide IsNext, JobCounted;
    if w in s.runs {
      assert RunCounted(s, s.runs[w]);
    }
    if v in s.runs {
      assert RunCounted(s, s.runs[v]);
    }
  }

  lemma StepKeepsKeys(s: State, step: Step)
    requires Counted(s) && Enabled(s, step)
    ensures Next(s, step).tallies.Keys == Next(s, step).jobs.Keys
  {
    hide IsNext, JobCounted;
    if step.Finish? {
      assert RunCounted(s, s.runs[step.w]);
    }
  }

  lemma StepKeepsCounted(s: State, step: Step)
    requires Counted(s) && Enabled(s, step)
    ensures Counted(Next(s, step))
  {
    hide Next, Enabled, JobCounted, RunCounted;
    var t := Next(s, step);
    StepKeepsKeys(s, step);
    forall j | j in t.jobs ensures j in t.tallies && JobCounted(t.jobs[j], t.tallies[j]) { StepCountsJob(s, step, j); }
    forall w | w in t.runs ensures RunCounted(t, t.runs[w]) { StepCountsRun(s, step, w); }
    forall w, v | w in t.runs && v in t.runs && w != v && t.runs[w].job == t.runs[v].job
      ensures t.runs[w].attempt != t.runs[v].attempt
    {
      StepKeepsAttemptsApart(s, step, w, v);
    }
  }

  lemma {:induction false} BelowCount(ks: set<nat>, n: nat)
    requires forall k | k in ks :: 1 <= k < n
    ensures |ks| <= if n == 0 then 0 else n - 1
  {
    if n <= 1 {
      HasElement(ks);
    } else {
      BelowCount(ks - {n - 1}, n - 1);
      assert n - 1 in ks ==> ks == (ks - {n - 1}) + {n - 1};
      assert n - 1 !in ks ==> ks == ks - {n - 1};
    }
  }

  // ---- one holder -----------------------------------------------------------------------

  predicate Holds(s: State, w: Id, j: Id) {
    w in s.runs && s.runs[w].job == j && s.now <= s.runs[w].lease
  }

  /** The row still carries the worker's own lock. */
  predicate OwnsLock(s: State, w: Id)
    requires w in s.runs && s.runs[w].job in s.jobs
  {
    var job := s.jobs[s.runs[w].job];
    job.status == Running && job.lockedBy == Some(w) && job.lockedUntil == Some(s.runs[w].lease)
  }

  /** Nobody can claim the job of a holder before its lease ends. */
  ghost predicate Spared(s: State, w: Id)
    requires w in s.runs && s.runs[w].job in s.jobs
  {
    var job := s.jobs[s.runs[w].job];
    OwnsLock(s, w) || Terminal(job.status) || (job.status == Queued && job.runAfter > s.runs[w].lease)
  }

  ghost predicate OneHolder(s: State) {
    forall w, v, j | Holds(s, w, j) && Holds(s, v, j) :: w == v
  }

  ghost predicate Exclusive(s: State) {
    && OneHolder(s)
    && (forall w | w in s.runs :: s.runs[w].job in s.jobs)
    && (forall w | w in s.runs && s.now <= s.runs[w].lease :: Spared(s, w))
  }

  /** The worker ends its processing with a retry. */
  predicate Retries(s: State, step: Step) {
    step.Finish? && step.outcome == Threw && step.w in s.runs && s.runs[step.w].attempt < s.runs[step.w].maxAttempts
  }

  /** Another worker holds the job for as long as the retry would wait, or longer. */
  ghost predicate RobsHolder(s: State, step: Step) {
    && Retries(s, step) && s.runs[step.w].attempt >= 1
    && exists v :: v != step.w && Holds(s, v, s.runs[step.w].job)
                   && s.now + Delay(s.runs[step.w].attempt) <= s.runs[v].lease
  }

  lemma StepKeepsSpared(s: State, step: Step, w: Id)
    requires Exclusive(s) && Enabled(s, step) && !RobsHolder(s, step)
    requires w in Next(s, step).runs && Next(s, step).now <= Next(s, step).runs[w].lease
    ensures var t := Next(s, step); t.runs[w].job in t.jobs && Spared(t, w)
  {
    hide IsNext, OneHolder, Delay;
    if step.Claim? && step.choice.Some? {
      NextIsThere(ReclaimAll(s.jobs, s.now) - step.skipped, s.now, step.choice);
    }
    if w in s.runs {
      assert Spared(s, w);
      if step.Finish? && s.runs[step.w].job == s.runs[w].job {
        assert w != step.w && Holds(s, w, s.runs[step.w].job);
      }
    }
  }

  lemma StepKeepsOneHolder(s: State, step: Step, w: Id, v: Id, j: Id)
    requires Exclusive(s) && Enabled(s, step) && Holds(Next(s, step), w, j) && Holds(Next(s, step), v, j)
    ensures w == v
  {
    hide IsNext, Delay;
    if step.Claim? && step.choice.Some? {
      NextIsThere(ReclaimAll(s.jobs, s.now) - step.skipped, s.now, step.choice);
    }
    if w in s.runs && s.now <= s.runs[w].lease {
      assert Spared(s, w);
    }
    if v in s.runs && s.now <= s.runs[v].lease {
      assert Spared(s, v);
    }
    if w in s.runs && v in s.runs {
      assert Holds(s, w, j) && Holds(s, v, j);
    }
  }

  lemma RunsHaveJobs(s: State, step: Step)
    requires Exclusive(s) && Enabled(s, step)
    ensures forall w | w in Next(s, step).runs :: Next(s, step).runs[w].job in Next(s, step).jobs
  {
    hide OneHolder, Spared, IsNext;
    if step.Claim? && step.choice.Some? {
      NextIsThere(ReclaimAll(s.jobs, s.now) - step.skipped, s.now, step.choice);
    }
  }

  lemma StepKeepsExclusive(s: State, step: Step)
    requires Exclusive(s) && Enabled(s, step) && !RobsHolder(s, step)
    ensures Exclusive(Next(s, step))
  {
    hide Next, Enabled, RobsHolder, Spared;
    var t := Next(s, step);
    RunsHaveJobs(s, step);
    forall w | w in t.runs && t.now <= t.runs[w].lease ensures Spared(t, w) { StepKeepsSpared(s, step, w); }
    forall w, v, j | Holds(t, w, j) && Holds(t, v, j) ensures w == v { StepKeepsOneHolder(s, step, w, v, j); }
  }

  // ---- terminal rows --------------------------------------------------------------------

  ghost predicate TerminalKept(s: State, t: State) {
    forall j | j in s.jobs && Terminal(s.jobs[j].status) :: j in t.jobs && t.jobs[j] == s.jobs[j]
  }

  /** The end of a processing finds a terminal row. */
  predicate Overwrites(s: State, step: Step) {
    step.Finish? && step.w in s.runs && s.runs[step.w].job in s.jobs && Terminal(s.jobs[s.runs[step.w].job].status)
  }

  /** A step leaves every terminal row as it is if and only if it is not the end of a processing whose
      job is already in a terminal status; the status it writes does not matter. */
  lemma TerminalKeptIff(s: State, step: Step)
    requires Enabled(s, step)
    ensures TerminalKept(s, Next(s, step)) <==> !Overwrites(s, step)
  {
    hide IsNext, Delay;
    if Overwrites(s, step) {
      var j := s.runs[step.w].job;
      assert Next(s, step).jobs[j].revision == s.jobs[j].revision + 1;
      assert Next(s, step).jobs[j] != s.jobs[j];
    }
    if step.Claim? && step.choice.Some? {
      NextIsThere(ReclaimAll(s.jobs, s.now) - step.skipped, s.now, step.choice);
    }
  }

  /** A guard the worker could put on its last write: the row still carries its own lock. */
  predicate Guarded(s: State, step: Step) {
    step.Finish? && step.w in s.runs && s.runs[step.w].job in s.jobs ==> OwnsLock(s, step.w)
  }

  lemma OwnerIsAlone(s: State, w: Id, v: Id)
    requires Exclusive(s) && w in s.runs && OwnsLock(s, w) && Holds(s, v, s.runs[w].job)
    ensures v == w
  {
    assert Spared(s, v);
  }

  /** Under the guard the write overwrites no terminal row and robs no holder. */
  lemma OwnLockIsEnough(s: State, step: Step)
    requires Exclusive(s) && Enabled(s, step) && Guarded(s, step)
    ensures !Overwrites(s, step) && !RobsHolder(s, step)
  {
    hide OneHolder, Spared;
    if step.Finish? {
      forall v | Holds(s, v, s.runs[step.w].job) ensures v == step.w {
        OwnerIsAlone(s, step.w, v);
      }
    }
  }

  /** Every holder owns the lock of its job. */
  ghost predicate Named(s: State) {
    && (forall w | w in s.runs :: s.runs[w].job in s.jobs)
    && (forall w | w in s.runs && s.now <= s.runs[w].lease :: OwnsLock(s, w))
  }

  lemma NamedIsExclusive(s: State)
    requires Named(s)
    ensures Exclusive(s)
  {
    forall w, v, j | Holds(s, w, j) && Holds(s, v, j) ensures w == v {
      assert OwnsLock(s, w) && OwnsLock(s, v);
    }
  }

  lemma StepKeepsLock(s: State, step: Step, w: Id)
    requires Named(s) && Enabled(s, step) && Guarded(s, step)
    requires w in Next(s, step).runs && Next(s, step).now <= Next(s, step).runs[w].lease
    ensures var t := Next(s, step); t.runs[w].job in t.jobs && OwnsLock(t, w)
  {
    hide IsNext, Delay;
    if step.Claim? && step.choice.Some? {
      NextIsThere(ReclaimAll(s.jobs, s.now) - step.skipped, s.now, step.choice);
    }
    if w in s.runs {
      assert OwnsLock(s, w);
    }
  }

  lemma StepKeepsNamed(s: State, step: Step)
    requires Named(s) && Enabled(s, step) && Guarded(s, step)
    ensures Named(Next(s, step))
  {
    hide Next, Enabled, Guarded, OwnsLock;
    var t := Next(s, step);
    NamedIsExclusive(s);
    RunsHaveJobs(s, step);
    forall w | w in t.runs && t.now <= t.runs[w].lease ensures OwnsLock(t, w) { StepKeepsLock(s, step, w); }
  }

  // ---- whole runs -----------------------------------------------------------------------

  ghost predicate Runs(s: State, steps: seq<Step>)
    decreases |steps|
  {
    steps == [] || (Enabled(s, steps[0]) && Runs(Next(s, steps[0]), steps[1..]))
  }

  ghost function After(s: State, steps: seq<Step>): State
    requires Runs(s, steps)
    decreases |steps|
  {
    if steps == [] then s else After(Next(s, steps[0]), steps[1..])
  }

  ghost predicate AllOnTime(s: State, steps: seq<Step>)
    requires Runs(s, steps)
    decreases |steps|
  {
    steps == [] || (OnTime(s, steps[0]) && AllOnTime(Next(s, steps[0]), steps[1..]))
  }

  ghost predicate AllGuarded(s: State, steps: seq<Step>)
    requires Runs(s, steps)
    decreases |steps|
  {
    steps == [] || (Guarded(s, steps[0]) && AllGuarded(Next(s, steps[0]), steps[1..]))
  }

  ghost predicate NoneRobs(s: State, steps: seq<Step>)
    requires Runs(s, steps)
    decreases |steps|
  {
    steps == [] || (!RobsHolder(s, steps[0]) && NoneRobs(Next(s, steps[0]), steps[1..]))
  }

  ghost predicate NoneOverwrites(s: State, steps: seq<Step>)
    requires Runs(s, steps)
    decreases |steps|
  {
    steps == [] || (!Overwrites(s, steps[0]) && NoneOverwrites(Next(s, steps[0]), steps[1..]))
  }

  function Start(now: int): State { State(now, map[], map[], map[]) }

  lemma {:induction false} RunKeepsCounted(s: State, steps: seq<Step>)
    requires Counted(s) && Runs(s, steps)
    ensures Counted(After(s, steps))
    decreases |steps|
  {
    hide Counted, Enabled, Next;
    if steps != [] {
      StepKeepsCounted(s, steps[0]);
      RunKeepsCounted(Next(s, steps[0]), steps[1..]);
    }
  }

  /** In every run, overruns included, a job is claimed at most as often as it may be attempted plus the
      times its lease expired, and its attempt count is the number of its claims. */
  lemma ClaimsAreBounded(now: int, steps: seq<Step>, j: Id)
    requires Runs(Start(now), steps) && j in After(Start(now), steps).jobs
    ensures var s := After(Start(now), steps);
            && j in s.tallies && s.tallies[j].claims == s.jobs[j].attempts
            && s.tallies[j].claims <= AtLeastOne(s.jobs[j].maxAttempts) + s.tallies[j].expiries
  {
    hide Runs, After, RunCounted;
    RunKeepsCounted(Start(now), steps);
    var s := After(Start(now), steps);
    assert JobCounted(s.jobs[j], s.tallies[j]);
    BelowCount(s.tallies[j].retried, s.jobs[j].maxAttempts);
  }

  lemma {:induction false} RunKeepsExclusive(s: State, steps: seq<Step>)
    requires Exclusive(s) && Runs(s, steps) && NoneRobs(s, steps)
    ensures Exclusive(After(s, steps))
    decreases |steps|
  {
    hide Exclusive, Enabled, Next, RobsHolder;
    if steps != [] {
      StepKeepsExclusive(s, steps[0]);
      RunKeepsExclusive(Next(s, steps[0]), steps[1..]);
    }
  }

  /** In every run, overruns included, at most one worker holds a job as long as no late retry robs a
      holder. */
  lemma EveryRunHasOneHolder(now: int, steps: seq<Step>, w: Id, v: Id, j: Id)
    requires Runs(Start(now), steps) && NoneRobs(Start(now), steps)
    requires Holds(After(Start(now), steps), w, j) && Holds(After(Start(now), steps), v, j)
    ensures w == v
  {
    hide Runs, After, NoneRobs, Spared;
    RunKeepsExclusive(Start(now), steps);
  }

  /** A terminal row stays exactly as it is over any run in which no processing ends on a terminal row. */
  lemma {:induction false} TerminalIsFinal(s: State, steps: seq<Step>)
    requires Runs(s, steps) && NoneOverwrites(s, steps)
    ensures TerminalKept(s, After(s, steps))
    decreases |steps|
  {
    hide Enabled, Next, Overwrites;
    if steps != [] {
      TerminalKeptIff(s, steps[0]);
      TerminalIsFinal(Next(s, steps[0]), steps[1..]);
    }
  }

  lemma {:induction false} GuardedIsSafe(s: State, steps: seq<Step>)
    requires Named(s) && Runs(s, steps) && AllGuarded(s, steps)
    ensures Named(After(s, steps)) && NoneRobs(s, steps) && NoneOverwrites(s, steps)
    decreases |steps|
  {
    hide Named, Enabled, Next, Guarded, RobsHolder, Overwrites;
    if steps != [] {
      NamedIsExclusive(s);
      OwnLockIsEnough(s, steps[0]);
      StepKeepsNamed(s, steps[0]);
      GuardedIsSafe(Next(s, steps[0]), steps[1..]);
    }
  }

  lemma {:induction false} OnTimeIsGuarded(s: State, steps: seq<Step>)
    requires Named(s) && Runs(s, steps) && AllOnTime(s, steps)
    ensures AllGuarded(s, steps)
    decreases |steps|
  {
    hide Enabled, Next, OwnsLock;
    if steps != [] {
      StepKeepsNamed(s, steps[0]);
      OnTimeIsGuarded(Next(s, steps[0]), steps[1..]);
    }
  }

  /** If every processing that ends does so before its lease does, it ends on its own lock: so at most
      one worker holds a job, and terminal rows are final from any point to any later one. */
  lemma EveryRunIsSafe(now: int, before: seq<Step>, after: seq<Step>, w: Id, v: Id, j: Id)
    requires Runs(Start(now), before) && AllOnTime(Start(now), before)
    requires var s := After(Start(now), before); Runs(s, after) && AllOnTime(s, after)
    ensures var s := After(Start(now), before);
            && (Holds(s, w, j) && Holds(s, v, j) ==> w == v)
            && TerminalKept(s, After(s, after))
  {
    hide Runs, After, AllOnTime, AllGuarded, TerminalKept, OwnsLock;
    var start, s := Start(now), After(Start(now), before);
    OnTimeIsGuarded(start, before);
    GuardedIsSafe(start, before);
    NamedIsExclusive(s);
    OnTimeIsGuarded(s, after);
    GuardedIsSafe(s, after);
    TerminalIsFinal(s, after);
  }
}
