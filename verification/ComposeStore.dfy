/** The compose worker as it runs against the job table. */
module ComposeStore {
  import opened Common
  import opened ComposeQueue

  class Worker {
    var now: int
    var jobs: map<Id, Job>
    var runs: map<Id, Run>
    ghost var tallies: map<Id, Tally>

    ghost function Snapshot(): State
      reads this
    {
      State(now, jobs, runs, tallies)
    }

    /** The first statement of a claim, row by row. */
    method ReclaimStaleLocks()
      modifies `jobs
      ensures jobs == ReclaimAll(old(jobs), now)
    {
      ghost var was := jobs;
      var todo := jobs.Keys;
      while todo != {}
        invariant todo <= was.Keys == jobs.Keys
        invariant forall j | j in jobs :: jobs[j] == if j in todo then was[j] else Reclaimed(was[j], now)
        decreases |todo|
      {
        HasElement(todo);
        var j :| j in todo;
        jobs, todo := jobs[j := Reclaimed(jobs[j], now)], todo - {j};
      }
    }

    /** The candidate query: an eligible job that comes first, if there is one. */
    method Candidate() returns (choice: Option<Id>)
      ensures IsNext(jobs, now, choice)
    {
      choice := None;
      var todo := jobs.Keys;
      while todo != {}
        invariant todo <= jobs.Keys
        invariant choice.Some? ==> choice.value in jobs && Eligible(jobs[choice.value], now)
        invariant forall j | j in jobs && j !in todo && Eligible(jobs[j], now) ::
                    choice.Some? && NotAfter(jobs[choice.value], jobs[j])
        decreases |todo|
      {
        HasElement(todo);
        var j :| j in todo;
        todo := todo - {j};
        if Eligible(jobs[j], now) && (choice.None? || !NotAfter(jobs[choice.value], jobs[j])) {
          choice := Some(j);
        }
      }
    }

    method ClaimNextComposeJob(w: Id) returns (choice: Option<Id>)
      requires w !in runs
      modifies `jobs, `runs, `tallies
      ensures Enabled(old(Snapshot()), Claim(w, {}, choice))
      ensures Snapshot() == Next(old(Snapshot()), Claim(w, {}, choice))
    {
      hide ReclaimAll, IsNext, Expiring;
      ghost var s := Snapshot();
      ReclaimStaleLocks();
      choice := Candidate();
      assert jobs - {} == jobs;
      tallies := Expiring(s);
      if choice.Some? {
        var j := choice.value;
        NextIsThere(jobs, now, choice);
        jobs := jobs[j := Locked(jobs[j], w, now)];
        runs := runs[w := Run(j, jobs[j].attempts, jobs[j].maxAttempts, now + LOCK_TTL)];
        tallies := tallies[j := TallyOf(tallies, j).(claims := TallyOf(tallies, j).claims + 1)];
      }
    }

    method MarkJobTerminal(j: Id, status: JobStatus)
      requires j in jobs
      modifies `jobs
      ensures jobs == old(jobs)[j := Unlocked(old(jobs)[j], status)]
    {
      jobs := jobs[j := jobs[j].(status := status, lockedBy := None, lockedUntil := None,
                                 revision := jobs[j].revision + 1)];
    }

    method RescheduleJob(j: Id, delay: int)
      requires j in jobs
      modifies `jobs
      ensures jobs == old(jobs)[j := Unlocked(old(jobs)[j], Queued).(runAfter := now + delay)]
    {
      jobs := jobs[j := jobs[j].(status := Queued, runAfter := now + delay, lockedBy := None, lockedUntil := None,
                                 revision := jobs[j].revision + 1)];
    }

    /** `processJob`, given how composing the delivery turned out. */
    method ProcessJob(w: Id, outcome: Outcome)
      requires Enabled(Snapshot(), Finish(w, outcome))
      modifies `jobs, `runs, `tallies
      ensures Snapshot() == Next(old(Snapshot()), Finish(w, outcome))
      ensures old(Counted(Snapshot())) ==> Counted(Snapshot())
      ensures TerminalKept(old(Snapshot()), Snapshot()) <==> !old(Overwrites(Snapshot(), Finish(w, outcome)))
    {
      hide Counted, TerminalKept;
      ghost var s := Snapshot();
      TerminalKeptIff(s, Finish(w, outcome));
      if Counted(s) {
        StepKeepsCounted(s, Finish(w, outcome));
      }
      var run := runs[w];
      if outcome == Malformed {
        MarkJobTerminal(run.job, Failed);
      } else if outcome == Missing {
        MarkJobTerminal(run.job, Cancelled);
      } else if outcome == Composed {
        MarkJobTerminal(run.job, Succeeded);
      } else if run.attempt >= run.maxAttempts {
        MarkJobTerminal(run.job, Failed);
      } else {
        RescheduleJob(run.job, Delay(run.attempt));
        var tally := TallyOf(tallies, run.job);
        tallies := tallies[run.job := tally.(retried := tally.retried + {run.attempt})];
      }
      runs := runs - {w};
    }
  }
}
