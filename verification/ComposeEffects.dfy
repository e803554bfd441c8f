/** What a claim and the end of a processing do to the job rows they find. */
module ComposeEffects {
  import opened Common
  import opened ComposeQueue

  /** A claim may take the job: it is queued, or its lock has run out, and its time has come. */
  predicate Takeable(job: Job, now: int) {
    && (job.status == Queued || (job.status == Running && job.lockedUntil.Some? && job.lockedUntil.value < now))
    && job.runAfter <= now
  }

  /** The job as a claim by somebody else leaves it: a lock that has run out is taken away. */
  function Passed(job: Job, now: int): Job {
    if job.status == Running && job.lockedUntil.Some? && job.lockedUntil.value < now
    then job.(status := Queued, lockedBy := None, lockedUntil := None, revision := job.revision + 1) else job
  }

  const ONE_MINUTE: int := 60_000

  /** A claim takes a job that may be taken and that no other such job precedes, by priority and then by
      time, and none only when there is none, other transactions' locked rows aside.  It runs for a
      minute under the worker's lock as one attempt more; every other job is passed. */
  lemma ClaimExactly(s: State, w: Id, skipped: set<Id>, choice: Option<Id>, j: Id)
    requires Enabled(s, Claim(w, skipped, choice)) && j in s.jobs
    ensures var t, job := Next(s, Claim(w, skipped, choice)), s.jobs[j];
            && t.jobs.Keys == s.jobs.Keys && t.now == s.now
            && (Some(j) != choice ==> t.jobs[j] == Passed(job, s.now))
            && (Takeable(job, s.now) && j !in skipped ==>
                  && choice.Some? && choice.value in s.jobs
                  && var first := s.jobs[choice.value];
                     || first.priority < job.priority
                     || (first.priority == job.priority && first.runAfter <= job.runAfter))
            && (Some(j) == choice ==>
                  && Takeable(job, s.now) && j !in skipped
                  && t.jobs[j] == Passed(job, s.now).(
                       status := Running, attempts := job.attempts + 1, lockedBy := Some(w),
                       lockedUntil := Some(s.now + ONE_MINUTE), revision := t.jobs[j].revision)
                  && t.jobs[j].revision > job.revision
                  && t.runs == s.runs[w := Run(j, job.attempts + 1, job.maxAttempts, s.now + ONE_MINUTE)])
            && (choice == None ==> t.runs == s.runs)
  {
    var jobs := ReclaimAll(s.jobs, s.now) - skipped;
    if j !in skipped {
      assert j in jobs;
    }
  }

  /** The wait before the next attempt: 15 seconds, a minute, five minutes, a quarter of an hour, and an hour
      from the fifth on. */
  function Wait(attempt: nat): int {
    if attempt <= 1 then 15 * 1000
    else if attempt == 2 then 60 * 1000
    else if attempt == 3 then 5 * 60 * 1000
    else if attempt == 4 then 15 * 60 * 1000
    else 60 * 60 * 1000
  }

  /** The end of a processing releases the job: failed if its payload does not parse, cancelled if the
      delivery is gone, succeeded if the report was composed.  After an error it goes back to the queue
      and waits, or fails if this was its last attempt.  No other job changes. */
  lemma EndExactly(s: State, w: Id, outcome: Outcome)
    requires Enabled(s, Finish(w, outcome))
    ensures var t, run := Next(s, Finish(w, outcome)), s.runs[w];
            var job, again := s.jobs[run.job], outcome == Threw && run.attempt < run.maxAttempts;
            && t.now == s.now && t.runs == s.runs - {w}
            && t.jobs == s.jobs[run.job := job.(
                 status := match outcome
                           case Malformed => Failed
                           case Missing => Cancelled
                           case Composed => Succeeded
                           case Threw => if again then Queued else Failed,
                 runAfter := if again then s.now + Wait(run.attempt) else job.runAfter,
                 lockedBy := None, lockedUntil := None, revision := job.revision + 1)]
  {
  }

  /** A new job waits in the queue unlocked; a worker that stops leaves every job as it is. */
  lemma QuietSteps(s: State, step: Step)
    requires Enabled(s, step) && (step.Tick? || step.Enqueue? || step.Crash?)
    ensures var t := Next(s, step);
            && t.now == s.now + (if step.Tick? then step.d else 0)
            && t.jobs == (if step.Enqueue? then s.jobs[step.j := step.job] else s.jobs)
            && t.runs == (if step.Crash? then s.runs - {step.w} else s.runs)
            && (step.Enqueue? ==> !Terminal(step.job.status) && step.job.attempts == 0 && step.j !in s.jobs)
  {
  }

  // ---- a job that always fails ----------------------------------------------------------

  /** One attempt after another, each ending in an error, with the wait after it. */
  function Rounds(w: Id, j: Id, attempt: nat, last: nat): seq<Step>
    requires attempt <= last + 1
    decreases last + 1 - attempt
  {
    if attempt > last then []
    else [Claim(w, {}, Some(j)), Finish(w, Threw), Tick(Wait(attempt))] + Rounds(w, j, attempt + 1, last)
  }

  /** The only job, waiting for its next attempt. */
  ghost predicate Waiting(s: State, j: Id, attempts: nat) {
    && s.jobs.Keys == {j} && s.runs == map[]
    && s.jobs[j].status == Queued && s.jobs[j].runAfter <= s.now && s.jobs[j].attempts == attempts
    && s.jobs[j].wellFormed
  }

  lemma ThreeSteps(s: State, a: Step, b: Step, c: Step, rest: seq<Step>)
    requires Enabled(s, a) && Enabled(Next(s, a), b) && Enabled(Next(Next(s, a), b), c)
    requires Runs(Next(Next(Next(s, a), b), c), rest)
    ensures Runs(s, [a, b, c] + rest)
    ensures After(s, [a, b, c] + rest) == After(Next(Next(Next(s, a), b), c), rest)
  {
    hide Enabled, Next;
    var t, u := Next(s, a), Next(Next(s, a), b);
    assert ([a, b, c] + rest)[1..] == [b, c] + rest && ([b, c] + rest)[1..] == [c] + rest && ([c] + rest)[1..] == rest;
    assert Runs(u, [c] + rest) && After(u, [c] + rest) == After(Next(u, c), rest);
    assert Runs(t, [b, c] + rest) && After(t, [b, c] + rest) == After(Next(u, c), rest);
  }

  lemma AloneIsNext(s: State, j: Id)
    requires s.jobs.Keys == {j} && s.jobs[j].status == Queued && s.jobs[j].runAfter <= s.now
    ensures IsNext(ReclaimAll(s.jobs, s.now) - {}, s.now, Some(j))
  {
  }

  lemma OneRound(s: State, w: Id, j: Id, attempt: nat) returns (u: State, v: State)
    requires attempt >= 1 && Waiting(s, j, attempt - 1) && attempt <= s.jobs[j].maxAttempts
    ensures Enabled(s, Claim(w, {}, Some(j))) && u == Next(s, Claim(w, {}, Some(j)))
    ensures Enabled(u, Finish(w, Threw)) && v == Next(u, Finish(w, Threw))
    ensures var t := Next(v, Tick(Wait(attempt)));
            && t.jobs.Keys == {j} && t.jobs[j].maxAttempts == s.jobs[j].maxAttempts
            && (attempt < s.jobs[j].maxAttempts ==> Waiting(t, j, attempt))
            && (attempt == s.jobs[j].maxAttempts ==> t.jobs[j].status == Failed && t.jobs[j].attempts == attempt)
  {
    hide ReclaimAll, Locked, Expiring, TallyOf;
    assert Enabled(s, Claim(w, {}, Some(j))) by { AloneIsNext(s, j); }
    u := Next(s, Claim(w, {}, Some(j)));
    ClaimExactly(s, w, {}, Some(j), j);
    EndExactly(u, w, Threw);
    v := Next(u, Finish(w, Threw));
  }

  lemma TickIsFree(s: State, d: nat)
    ensures Enabled(s, Tick(d))
  {
  }

  /** A job whose every attempt ends in an error gets exactly as many attempts as it may, each as soon as the
      wait after the one before is over, and has then failed. */
  lemma {:induction false} ErrorsRunOut(s: State, w: Id, j: Id, attempt: nat)
    requires attempt >= 1 && Waiting(s, j, attempt - 1) && attempt <= s.jobs[j].maxAttempts
    ensures var steps := Rounds(w, j, attempt, s.jobs[j].maxAttempts);
            && Runs(s, steps) && j in After(s, steps).jobs
            && After(s, steps).jobs[j].status == Failed
            && After(s, steps).jobs[j].attempts == s.jobs[j].maxAttempts
    decreases s.jobs[j].maxAttempts - attempt
  {
    hide Enabled, Next;
    var last := s.jobs[j].maxAttempts;
    var u, v := OneRound(s, w, j, attempt);
    TickIsFree(v, Wait(attempt));
    var t := Next(v, Tick(Wait(attempt)));
    if attempt < last {
      ErrorsRunOut(t, w, j, attempt + 1);
    } else {
      assert Rounds(w, j, attempt + 1, last) == [];
    }
    ThreeSteps(s, Claim(w, {}, Some(j)), Finish(w, Threw), Tick(Wait(attempt)), Rounds(w, j, attempt + 1, last));
  }
}
