/** What an unguarded end of a processing can do after its lease: two holders of one job, and a
    rewritten terminal row.  The conditions under which it does neither are exact. */
module ComposeRaces {
  import opened Common
  import opened ComposeQueue

  // ---- continuations in which every end is in time ----------------------------------------

  lemma {:induction false} RunsOn(s: State, a: seq<Step>, b: seq<Step>)
    requires Runs(s, a) && AllOnTime(s, a) && Runs(After(s, a), b) && AllOnTime(After(s, a), b)
    ensures Runs(s, a + b) && AllOnTime(s, a + b) && After(s, a + b) == After(After(s, a), b)
    decreases |a|
  {
    hide Enabled, Next, OnTime;
    if a == [] {
      assert a + b == b;
    } else {
      RunsOn(Next(s, a[0]), a[1..], b);
      assert (a + b)[1..] == a[1..] + b;
    }
  }

  ghost predicate Reaches(s: State, t: State) {
    exists steps :: Runs(s, steps) && AllOnTime(s, steps) && After(s, steps) == t
  }

  lemma ReachesNext(s: State, step: Step)
    requires Enabled(s, step) && OnTime(s, step)
    ensures Reaches(s, Next(s, step))
  {
    hide Enabled, Next, OnTime;
    var t := Next(s, step);
    assert [step][1..] == [];
    assert Runs(t, []) && AllOnTime(t, []) && After(t, []) == t;
    assert Runs(s, [step]) && AllOnTime(s, [step]) && After(s, [step]) == t;
  }

  lemma ReachesOn(s: State, t: State, u: State)
    requires Reaches(s, t) && Reaches(t, u)
    ensures Reaches(s, u)
  {
    hide Runs, AllOnTime, After;
    var a :| Runs(s, a) && AllOnTime(s, a) && After(s, a) == t;
    var b :| Runs(t, b) && AllOnTime(t, b) && After(t, b) == u;
    RunsOn(s, a, b);
  }

  lemma ReachesThen(s: State, t: State, step: Step)
    requires Reaches(s, t) && Enabled(t, step) && OnTime(t, step)
    ensures Reaches(s, Next(t, step))
  {
    hide Enabled, Next, OnTime, Reaches;
    ReachesNext(t, step);
    ReachesOn(s, t, Next(t, step));
  }

  // ---- an eligible job can be claimed ----------------------------------------------------

  /** Eligible once the stale locks are put back. */
  function EligibleIn(s: State): set<Id> {
    set j | j in s.jobs && Eligible(Reclaimed(s.jobs[j], s.now), s.now)
  }

  ghost predicate IsFirst(jobs: map<Id, Job>, among: set<Id>, j: Id)
    requires among <= jobs.Keys
  {
    j in among && forall k | k in among :: NotAfter(jobs[j], jobs[k])
  }

  lemma OnlyIsFirst(jobs: map<Id, Job>, among: set<Id>, j: Id)
    requires among <= jobs.Keys && j in among && among - {j} == {}
    ensures IsFirst(jobs, among, j)
  {
    forall k | k in among ensures k == j { assert k !in among - {j}; }
  }

  lemma FirstOfTwo(jobs: map<Id, Job>, among: set<Id>, j: Id, k: Id)
    requires among <= jobs.Keys && j in among && IsFirst(jobs, among - {j}, k)
    ensures IsFirst(jobs, among, if NotAfter(jobs[j], jobs[k]) then j else k)
  {
    assert forall l | l in among && l != j :: l in among - {j};
  }

  lemma {:induction false} SomeFirst(jobs: map<Id, Job>, among: set<Id>)
    requires among != {} && among <= jobs.Keys
    ensures exists j :: IsFirst(jobs, among, j)
    decreases |among|
  {
    hide IsFirst;
    HasElement(among);
    var j: Id :| j in among;
    var rest := among - {j};
    if rest == {} {
      OnlyIsFirst(jobs, among, j);
    } else {
      SomeFirst(jobs, rest);
      var k: Id :| IsFirst(jobs, rest, k);
      FirstOfTwo(jobs, among, j, k);
    }
  }

  lemma SomeNext(s: State)
    requires EligibleIn(s) != {}
    ensures exists j :: j in EligibleIn(s) && IsNext(ReclaimAll(s.jobs, s.now), s.now, Some(j))
  {
    var jobs := ReclaimAll(s.jobs, s.now);
    SomeFirst(jobs, EligibleIn(s));
    var j: Id :| IsFirst(jobs, EligibleIn(s), j);
    assert forall k | k in jobs && Eligible(jobs[k], s.now) :: k in EligibleIn(s);
    assert IsNext(jobs, s.now, Some(j));
  }

  /** `x` has claimed `j`; the other runs are as before. */
  ghost predicate ClaimedBy(s: State, t: State, x: Id, j: Id) {
    && t.now == s.now && t.jobs.Keys == s.jobs.Keys && j in s.jobs
    && t.runs == s.runs[x := Run(j, s.jobs[j].attempts + 1, s.jobs[j].maxAttempts, s.now + LOCK_TTL)]
    && t.jobs[j] == Locked(Reclaimed(s.jobs[j], s.now), x, s.now)
  }

  lemma ReclaimedOnce(job: Job, other: Job, x: Id, now: int)
    ensures Reclaimed(Reclaimed(job, now), now) == Reclaimed(job, now)
    ensures Reclaimed(job, now).attempts == job.attempts && Reclaimed(job, now).maxAttempts == job.maxAttempts
    ensures Locked(Reclaimed(other, now), x, now).attempts == other.attempts + 1
    ensures Locked(Reclaimed(other, now), x, now).maxAttempts == other.maxAttempts
  {
  }

  lemma EligibleHasRow(s: State, j: Id)
    requires j in EligibleIn(s)
    ensures j in s.jobs
  {
  }

  lemma FewerEligible(s: State, k: Id, x: Id, u: State)
    requires k in EligibleIn(s) && u.now == s.now
    requires u.jobs == ReclaimAll(s.jobs, s.now)[k := Locked(Reclaimed(s.jobs[k], s.now), x, s.now)]
    ensures EligibleIn(u) == EligibleIn(s) - {k} && |EligibleIn(u)| < |EligibleIn(s)|
  {
    assert forall j | j in s.jobs && j != k :: u.jobs[j] == Reclaimed(s.jobs[j], s.now);
    assert forall j | j in s.jobs && j != k :: Reclaimed(u.jobs[j], s.now) == u.jobs[j];
    assert EligibleIn(u) == EligibleIn(s) - {k};
  }

  /** A free worker can claim any eligible job, whatever comes before it. */
  lemma {:induction false} EligibleIsClaimable(s: State, x: Id, j: Id) returns (t: State)
    requires j in EligibleIn(s) && x !in s.runs
    ensures Reaches(s, t) && ClaimedBy(s, t, x, j)
    decreases |EligibleIn(s)|
  {
    hide Reaches, IsNext, EligibleIn, Expiring, Reclaimed, Locked;
    SomeNext(s);
    var k: Id :| k in EligibleIn(s) && IsNext(ReclaimAll(s.jobs, s.now), s.now, Some(k));
    NextIsThere(ReclaimAll(s.jobs, s.now), s.now, Some(k));
    assert ReclaimAll(s.jobs, s.now) - {} == ReclaimAll(s.jobs, s.now);
    t := Next(s, Claim(x, {}, Some(k)));
    ReachesNext(s, Claim(x, {}, Some(k)));
    EligibleHasRow(s, j);
    EligibleHasRow(s, k);
    ReclaimedOnce(s.jobs[j], s.jobs[k], x, s.now);
    if k != j {
      var u := Next(t, Crash(x));
      ReachesThen(s, t, Crash(x));
      assert u.runs == s.runs;
      FewerEligible(s, k, x, u);
      var claimed := EligibleIsClaimable(u, x, j);
      ReachesOn(s, u, claimed);
      t := claimed;
    }
  }

  // ---- two holders ----------------------------------------------------------------------

  ghost predicate CanHaveTwoHolders(s: State) {
    exists t :: Reaches(s, t) && !OneHolder(t)
  }

  lemma NowEligible(s: State, j: Id)
    requires j in s.jobs && Eligible(s.jobs[j], s.now)
    ensures j in EligibleIn(s)
  {
  }

  lemma NotOne(s: State, v: Id, x: Id, j: Id)
    requires Holds(s, v, j) && Holds(s, x, j) && v != x
    ensures !OneHolder(s)
  {
  }

  /** At most one worker holds a job exactly as long as no retry robs a holder: from any state so far
      exclusive, a retry that does leads to two holders, with every later end in time. */
  lemma RobbingMakesTwoHolders(s: State, step: Step, x: Id)
    requires Exclusive(s) && Enabled(s, step) && RobsHolder(s, step) && x !in s.runs
    ensures CanHaveTwoHolders(Next(s, step))
  {
    hide Reaches, EligibleIn, OneHolder, Spared;
    var w, j := step.w, s.runs[step.w].job;
    var wait: nat := Delay(s.runs[w].attempt);
    var v: Id :| v != w && Holds(s, v, j) && s.now + wait <= s.runs[v].lease;
    var t := Next(s, step);
    ReachesNext(t, Tick(wait));
    var u := Next(t, Tick(wait));
    NowEligible(u, j);
    var two := EligibleIsClaimable(u, x, j);
    ReachesOn(t, u, two);
    assert Holds(two, v, j) && Holds(two, x, j);
    NotOne(two, v, x, j);
  }

  // ---- rewritten terminal rows ------------------------------------------------------------

  lemma ReachesItself(s: State)
    ensures Reaches(s, s)
  {
    assert Runs(s, []) && AllOnTime(s, []) && After(s, []) == s;
  }

  /** After waiting long enough a job that is not terminal is eligible. */
  lemma Patience(s: State, j: Id) returns (wait: nat)
    requires Counted(s) && j in s.jobs && !Terminal(s.jobs[j].status)
    ensures j in EligibleIn(Next(s, Tick(wait)))
  {
    var job := s.jobs[j];
    assert JobCounted(job, s.tallies[j]);
    var locked := if job.lockedUntil.Some? then job.lockedUntil.value + 1 else s.now;
    var latest := if locked >= job.runAfter then locked else job.runAfter;
    wait := if latest > s.now then latest - s.now else 0;
  }

  /** Without the guard no processing is ever safe: from any state with one under way, others who end
      in time can bring its job to a terminal status, and its own end then rewrites that row. */
  lemma AnyProcessingCanOverwrite(s: State, w: Id, x: Id, outcome: Outcome) returns (t: State)
    requires Counted(s) && Enabled(s, Finish(w, outcome)) && x !in s.runs
    ensures Reaches(s, t) && Enabled(t, Finish(w, outcome)) && Overwrites(t, Finish(w, outcome))
    ensures !TerminalKept(t, Next(t, Finish(w, outcome)))
  {
    hide Reaches, EligibleIn, Expiring, TerminalKept, JobCounted, Delay;
    var j := s.runs[w].job;
    t := s;
    if Terminal(s.jobs[j].status) {
      ReachesItself(s);
    } else {
      var wait := Patience(s, j);
      var u := Next(s, Tick(wait));
      ReachesNext(s, Tick(wait));
      var c := EligibleIsClaimable(u, x, j);
      ReachesOn(s, u, c);
      var end := if s.jobs[j].wellFormed then Composed else Malformed;
      t := Next(c, Finish(x, end));
      ReachesThen(s, c, Finish(x, end));
    }
    TerminalKeptIff(t, Finish(w, outcome));
  }

  // ---- both happen ----------------------------------------------------------------------

  lemma NobodyHolds(s: State)
    requires s.runs == map[]
    ensures Exclusive(s)
  {
  }

  lemma FirstClaim(max: nat) returns (s: State)
    ensures Reaches(Start(0), s) && Exclusive(s)
    ensures s.now == 0 && s.runs == map[1 := Run(7, 1, max, 60_000)] && s.jobs.Keys == {7}
    ensures s.jobs[7] == Job(Running, 0, 0, 1, max, Some(1), Some(60_000), true, 2)
  {
    hide Reaches, Exclusive, Expiring;
    var job := Job(Queued, 0, 0, 0, max, None, None, true, 1);
    var a := Next(Start(0), Enqueue(7, job));
    ReachesNext(Start(0), Enqueue(7, job));
    NobodyHolds(Start(0));
    StepKeepsExclusive(Start(0), Enqueue(7, job));
    s := Next(a, Claim(1, {}, Some(7)));
    ReachesThen(Start(0), a, Claim(1, {}, Some(7)));
    StepKeepsExclusive(a, Claim(1, {}, Some(7)));
  }

  /** Two claims of job 7, the second after the lease of the first: the job allows `max` attempts. */
  lemma Overrun(max: nat) returns (s: State)
    ensures Reaches(Start(0), s) && Exclusive(s)
    ensures s.now == 60_001
    ensures s.runs == map[1 := Run(7, 1, max, 60_000), 2 := Run(7, 2, max, 120_001)]
    ensures s.jobs.Keys == {7} && s.jobs[7].wellFormed && s.jobs[7].status == Running
  {
    hide Reaches, Exclusive, Expiring;
    var b := FirstClaim(max);
    var c := Next(b, Tick(60_001));
    ReachesThen(Start(0), b, Tick(60_001));
    StepKeepsExclusive(b, Tick(60_001));
    assert ReclaimAll(c.jobs, c.now)[7].status == Queued;
    s := Next(c, Claim(2, {}, Some(7)));
    ReachesThen(Start(0), c, Claim(2, {}, Some(7)));
    StepKeepsExclusive(c, Claim(2, {}, Some(7)));
  }

  /** From an empty queue: worker 1 outlives its lease while worker 2 holds the job, and its retry
      robs worker 2. */
  lemma RobbingHappens() returns (s: State)
    ensures Reaches(Start(0), s) && Exclusive(s) && Enabled(s, Finish(1, Threw)) && RobsHolder(s, Finish(1, Threw))
    ensures CanHaveTwoHolders(Next(s, Finish(1, Threw)))
  {
    hide Reaches, CanHaveTwoHolders;
    s := Overrun(5);
    assert Holds(s, 2, 7) && s.now + Delay(1) <= s.runs[2].lease;
    RobbingMakesTwoHolders(s, Finish(1, Threw), 3);
  }

  /** And from there a late last attempt that throws turns a success into a failure. */
  lemma OverwritingHappens() returns (s: State)
    ensures Reaches(Start(0), s) && s.jobs.Keys == {7} && s.jobs[7].status == Succeeded
    ensures Enabled(s, Finish(1, Threw)) && Next(s, Finish(1, Threw)).jobs[7].status == Failed
  {
    hide Reaches, Exclusive;
    var o := Overrun(1);
    s := Next(o, Finish(2, Composed));
    ReachesThen(Start(0), o, Finish(2, Composed));
  }
}
