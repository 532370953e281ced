/** The durable job queue: a table of job rows shared by any number of workers,
    which claim, run, finish, crash and are reaped by lease. */
module Queue {
  import opened Powers
  import opened Wrappers

  // ---- Rows -----------------------------------------------------------------

  type JobId = nat
  type WorkerId = nat

  /** Clock ticks; a microsecond each, as in the timestamp columns. */
  const SECOND := 1_000_000
  const LEASE := 300 * SECOND
  const DAY := 24 * 3600 * SECOND

  datatype Status = PENDING | RUNNING | SUCCEEDED | FAILED

  datatype Job = Job(
    status: Status, attempts: nat, maxAttempts: nat,
    runAfter: int, lockedAt: Option<int>, updatedAt: int)
  {
    predicate Terminal() {
      status == SUCCEEDED || status == FAILED
    }
  }

  /** How a run of a handler ended: returned, raised, or had no handler. */
  datatype Outcome = Returned | Raised | NoHandler

  function Backoff(attempts: nat): (delay: nat) {
    SECOND * if Pow2(attempts) * 5 < 600 then Pow2(attempts) * 5 else 600
  }

  predicate Eligible(job: Job, now: int) {
    job.status == PENDING && job.runAfter <= now
  }

  function Claimed(job: Job, now: int): Job {
    job.(status := RUNNING, lockedAt := Some(now), attempts := job.attempts + 1, updatedAt := now)
  }

  /** `_finish`. It writes to the row as it is now, whoever holds it now. */
  function Finished(job: Job, outcome: Outcome, now: int): Job {
    var done := job.(lockedAt := None, updatedAt := now);
    if outcome == Returned then done.(status := SUCCEEDED)
    else if outcome == NoHandler || job.attempts >= job.maxAttempts then done.(status := FAILED)
    else done.(status := PENDING, runAfter := now + Backoff(job.attempts))
  }

  predicate Stuck(job: Job, now: int) {
    job.status == RUNNING && job.lockedAt.Some? && job.lockedAt.value < now - LEASE
  }

  function Unlocked(job: Job, now: int): Job {
    if Stuck(job, now) then job.(status := PENDING, lockedAt := None, updatedAt := now) else job
  }

  function Released(jobs: map<JobId, Job>, now: int): map<JobId, Job> {
    map id | id in jobs :: Unlocked(jobs[id], now)
  }

  /** A retention of no days, or fewer, keeps finished jobs for ever. */
  predicate Prunable(job: Job, days: int, now: int) {
    0 < days && job.Terminal() && job.updatedAt < now - days * DAY
  }

  function Pruned(jobs: map<JobId, Job>, days: int, now: int): map<JobId, Job> {
    map id | id in jobs && !Prunable(jobs[id], days, now) :: jobs[id]
  }

  // ---- The table ------------------------------------------------------------

  class JobTable {
    var jobs: map<JobId, Job>

    constructor ()
      ensures jobs == map[]
    {
      jobs := map[];
    }

    method Enqueue(id: JobId, maxAttempts: nat, runAfter: Option<int>, now: int)
      requires id !in jobs
      modifies this
      ensures jobs == old(jobs)[id := Job(PENDING, 0, maxAttempts,
                                          if runAfter.Some? then runAfter.value else now, None, now)]
    {
      var due := match runAfter case Some(t) => t case None => now;
      jobs := jobs[id := Job(PENDING, 0, maxAttempts, due, None, now)];
    }

    /** Takes the runnable job that has waited longest. `skipped` are the rows
        other workers have locked. */
    method Claim(now: int, skipped: set<JobId>) returns (got: Option<JobId>)
      modifies this
      ensures got.None? ==>
                jobs == old(jobs) && forall id <- old(jobs) :: id !in skipped ==> !Eligible(old(jobs)[id], now)
      ensures got.Some? ==>
                && got.value in old(jobs) && got.value !in skipped
                && Eligible(old(jobs)[got.value], now)
                && (forall id <- old(jobs) :: id !in skipped && Eligible(old(jobs)[id], now)
                                              ==> old(jobs)[got.value].runAfter <= old(jobs)[id].runAfter)
                && jobs == old(jobs)[got.value := Claimed(old(jobs)[got.value], now)]
    {
      got := None;
      var rest := jobs.Keys;
      while rest != {}
        invariant rest <= jobs.Keys && jobs == old(jobs)
        invariant got.None? ==> forall id <- jobs.Keys - rest :: id !in skipped ==> !Eligible(jobs[id], now)
        invariant got.Some? ==>
                    && got.value in jobs && got.value !in skipped && Eligible(jobs[got.value], now)
                    && forall id <- jobs.Keys - rest :: id !in skipped && Eligible(jobs[id], now)
                                                        ==> jobs[got.value].runAfter <= jobs[id].runAfter
        decreases rest
      {
        var id :| id in rest;
        rest := rest - {id};
        if id !in skipped && Eligible(jobs[id], now) && (got.None? || jobs[id].runAfter < jobs[got.value].runAfter) {
          got := Some(id);
        }
      }
      if got.Some? {
        var job := jobs[got.value];
        jobs := jobs[got.value := job.(status := RUNNING, lockedAt := Some(now),
                                       attempts := job.attempts + 1, updatedAt := now)];
      }
    }

    method Finish(id: JobId, outcome: Outcome, now: int)
      modifies this
      ensures jobs == if id in old(jobs) then old(jobs)[id := Finished(old(jobs)[id], outcome, now)] else old(jobs)
    {
      if id in jobs {
        var job := jobs[id];
        if outcome == Returned {
          job := job.(status := SUCCEEDED, lockedAt := None);
        } else if outcome == NoHandler || job.attempts >= job.maxAttempts {
          job := job.(status := FAILED, lockedAt := None);
        } else {
          job := job.(status := PENDING, lockedAt := None, runAfter := now + Backoff(job.attempts));
        }
        jobs := jobs[id := job.(updatedAt := now)];
      }
    }

    method ReleaseStuck(now: int) returns (released: nat)
      modifies this
      ensures jobs == Released(old(jobs), now)
      ensures released == |set id | id in old(jobs) && Stuck(old(jobs)[id], now)|
    {
      var stuck := set id | id in jobs && Stuck(jobs[id], now);
      released := |stuck|;
      jobs := map id | id in jobs ::
        if id in stuck then jobs[id].(status := PENDING, lockedAt := None, updatedAt := now) else jobs[id];
    }

    /** `days` is the retention the shop is run with. */
    method PruneFinished(days: int, now: int) returns (deleted: nat)
      modifies this
      ensures jobs == Pruned(old(jobs), days, now)
      ensures deleted == |set id | id in old(jobs) && Prunable(old(jobs)[id], days, now)|
    {
      if days <= 0 {
        assert {} == set id | id in jobs && Prunable(jobs[id], days, now);
        return 0;
      }
      var cutoff := now - days * DAY;
      var gone := set id | id in jobs && jobs[id].Terminal() && jobs[id].updatedAt < cutoff;
      deleted := |gone|;
      jobs := jobs - gone;
      assert gone == set id | id in old(jobs) && Prunable(old(jobs)[id], days, now);
    }
  }

  // ---- Runs of the whole system ---------------------------------------------

  /** What one worker has in hand, and since when. */
  datatype Hold = Hold(job: JobId, since: int)

  /** What has happened to one job so far; kept after the row is pruned. */
  datatype Tally = Tally(maxAttempts: nat, claims: nat, releases: nat)

  datatype World = World(
    jobs: map<JobId, Job>, holds: map<WorkerId, Hold>, tallies: map<JobId, Tally>, now: int)

  datatype Event =
    | Enqueue(id: JobId, maxAttempts: nat, runAfter: int)
    | Claim(worker: WorkerId, id: JobId)
    | Finish(worker: WorkerId, outcome: Outcome)
    | Crash(worker: WorkerId)
    | ReleaseStuck
    | Prune(days: int)

  /** An event and the time it happens. */
  type Timed = (Event, int)

  const EMPTY := World(map[], map[], map[], 0)

  ghost predicate Enabled(s: World, e: Timed)
  {
    && s.now <= e.1
    && match e.0
       case Enqueue(id, _, _) => id !in s.tallies
       case Claim(w, id) => w !in s.holds && id in s.jobs && Eligible(s.jobs[id], e.1)
       case Finish(w, _) => w in s.holds
       case Crash(w) => w in s.holds
       case _ => true
  }

  function CountReleases(tallies: map<JobId, Tally>, jobs: map<JobId, Job>, now: int): map<JobId, Tally> {
    map id | id in tallies ::
      if id in jobs && Stuck(jobs[id], now) then tallies[id].(releases := tallies[id].releases + 1) else tallies[id]
  }

  ghost function After(s: World, e: Timed): World
    requires Enabled(s, e)
  {
    var now := e.1;
    var t := s.(now := now);
    match e.0
    case Enqueue(id, maxAttempts, runAfter) =>
      t.(jobs := s.jobs[id := Job(PENDING, 0, maxAttempts, runAfter, None, now)],
         tallies := s.tallies[id := Tally(maxAttempts, 0, 0)])
    case Claim(w, id) =>
      t.(jobs := s.jobs[id := Claimed(s.jobs[id], now)],
         holds := s.holds[w := Hold(id, now)],
         tallies := if id in s.tallies then s.tallies[id := s.tallies[id].(claims := s.tallies[id].claims + 1)]
                    else s.tallies)
    case Finish(w, outcome) =>
      var id := s.holds[w].job;
      t.(jobs := if id in s.jobs then s.jobs[id := Finished(s.jobs[id], outcome, now)] else s.jobs,
         holds := s.holds - {w})
    case Crash(w) => t.(holds := s.holds - {w})
    case ReleaseStuck => t.(jobs := Released(s.jobs, now), tallies := CountReleases(s.tallies, s.jobs, now))
    case Prune(days) => t.(jobs := Pruned(s.jobs, days, now))
  }

  ghost predicate Legal(s: World, run: seq<Timed>)
    decreases run
  {
    run == [] || (Enabled(s, run[0]) && Legal(After(s, run[0]), run[1..]))
  }

  ghost function End(s: World, run: seq<Timed>): World
    requires Legal(s, run)
    decreases run
  {
    if run == [] then s else End(After(s, run[0]), run[1..])
  }

  lemma {:induction false} OneMore(s: World, run: seq<Timed>, t: World)
    requires run != [] && Enabled(s, run[0]) && After(s, run[0]) == t && Legal(t, run[1..])
    ensures Legal(s, run) && End(s, run) == End(t, run[1..])
  {
  }

  // ---- All runs: locks, the retry bound, the retry delay --------------------

  function AtLeastOne(n: nat): nat {
    if n == 0 then 1 else n
  }

  ghost predicate RowOk(s: World, id: JobId)
    requires id in s.jobs
  {
    var job := s.jobs[id];
    && id in s.tallies
    && var tally := s.tallies[id];
       && tally.maxAttempts == job.maxAttempts && tally.claims == job.attempts
       && (job.status == RUNNING <==> job.lockedAt.Some?)
       && (job.status == RUNNING ==> 0 < job.attempts)
       && (job.status == PENDING ==> job.attempts < AtLeastOne(job.maxAttempts) + tally.releases)
       && (0 < job.attempts ==> job.runAfter <= s.now + Backoff(job.attempts))
  }

  ghost predicate TallyOk(s: World, id: JobId)
    requires id in s.tallies
  {
    s.tallies[id].claims <= AtLeastOne(s.tallies[id].maxAttempts) + s.tallies[id].releases
  }

  ghost predicate HoldOk(s: World, w: WorkerId)
    requires w in s.holds
  {
    s.holds[w].job in s.tallies && (s.holds[w].job in s.jobs ==> 0 < s.jobs[s.holds[w].job].attempts)
  }

  ghost predicate Consistent(s: World)
  {
    && (forall id <- s.jobs {:trigger RowOk(s, id)} :: RowOk(s, id))
    && (forall id <- s.tallies {:trigger TallyOk(s, id)} :: TallyOk(s, id))
    && (forall w <- s.holds {:trigger HoldOk(s, w)} :: HoldOk(s, w))
  }

  lemma RowKept(s: World, e: Timed, id: JobId)
    requires Consistent(s) && Enabled(s, e) && id in After(s, e).jobs
    ensures RowOk(After(s, e), id)
  {
    if id in s.jobs {
      assert RowOk(s, id);
      assert TallyOk(s, id);
      if e.0.Finish? {
        assert HoldOk(s, e.0.worker);
      }
    }
  }

  lemma TallyKept(s: World, e: Timed, id: JobId)
    requires Enabled(s, e) && id in After(s, e).tallies && (id in s.jobs ==> RowOk(s, id))
             && (id in s.tallies ==> TallyOk(s, id))
    ensures TallyOk(After(s, e), id)
  {
  }

  lemma HoldKept(s: World, e: Timed, w: WorkerId)
    requires Enabled(s, e) && w in After(s, e).holds && (w in s.holds ==> HoldOk(s, w))
    requires e.0.Claim? ==> RowOk(s, e.0.id)
    ensures HoldOk(After(s, e), w)
  {
  }

  lemma StepKeepsConsistent(s: World, e: Timed)
    requires Consistent(s) && Enabled(s, e)
    ensures Consistent(After(s, e))
  {
    var t := After(s, e);
    forall id | id in t.jobs
      ensures RowOk(t, id)
    {
      RowKept(s, e, id);
    }
    forall id | id in t.tallies
      ensures TallyOk(t, id)
    {
      TallyKept(s, e, id);
    }
    forall w | w in t.holds
      ensures HoldOk(t, w)
    {
      HoldKept(s, e, w);
    }
  }

  lemma {:induction false} RunsStayConsistent(s: World, run: seq<Timed>)
    requires Consistent(s) && Legal(s, run)
    ensures Consistent(End(s, run))
    decreases run
  {
    if run != [] {
      StepKeepsConsistent(s, run[0]);
      RunsStayConsistent(After(s, run[0]), run[1..]);
    }
  }

  /** In every run, workers that outlive their lease included: a row is running
      exactly when it is locked, and no job is claimed more often than it may be
      attempted and has been released from a lease. */
  lemma RetryBound(run: seq<Timed>)
    requires Legal(EMPTY, run)
    ensures var s := End(EMPTY, run);
            && (forall id <- s.jobs :: s.jobs[id].status == RUNNING <==> s.jobs[id].lockedAt.Some?)
            && (forall id <- s.jobs :: id in s.tallies && s.jobs[id].attempts == s.tallies[id].claims)
            && (forall id <- s.tallies ::
                s.tallies[id].claims <= AtLeastOne(s.tallies[id].maxAttempts) + s.tallies[id].releases)
  {
    RunsStayConsistent(EMPTY, run);
    var s := End(EMPTY, run);
    forall id | id in s.jobs
      ensures id in s.tallies && s.jobs[id].attempts == s.tallies[id].claims
      ensures s.jobs[id].status == RUNNING <==> s.jobs[id].lockedAt.Some?
    {
      assert RowOk(s, id);
    }
    forall id | id in s.tallies
      ensures s.tallies[id].claims <= AtLeastOne(s.tallies[id].maxAttempts) + s.tallies[id].releases
    {
      assert TallyOk(s, id);
    }
  }

  /** A job that was claimed more often than it may be attempted and has been
      released. */
  ghost predicate Overclaimed(s: World, id: JobId, maxAttempts: nat)
  {
    && id in s.tallies && s.tallies[id].maxAttempts == maxAttempts
    && maxAttempts + s.tallies[id].releases < s.tallies[id].claims
  }

  ghost predicate CanOverclaim(maxAttempts: nat)
  {
    exists run, id :: Legal(EMPTY, run) && Overclaimed(End(EMPTY, run), id, maxAttempts)
  }

  /** The claims of a job can exceed the attempts it is allowed and its lease
      releases exactly when it is allowed none: it is still attempted once. */
  lemma NoAttemptsIsOne(maxAttempts: nat)
    ensures CanOverclaim(maxAttempts) <==> maxAttempts == 0
  {
    if CanOverclaim(maxAttempts) {
      var run, id :| Legal(EMPTY, run) && Overclaimed(End(EMPTY, run), id, maxAttempts);
      RetryBound(run);
      assert id in End(EMPTY, run).tallies;
      assert maxAttempts == 0;
    }
    if maxAttempts == 0 {
      ClaimedOnce();
      assert CanOverclaim(maxAttempts);
    }
  }

  lemma ClaimedOnce()
    ensures CanOverclaim(0)
  {
    var first: Timed, second: Timed := (Enqueue(0, 0, 0), 0), (Claim(1, 0), 0);
    var t := After(EMPTY, first);
    var u := After(t, second);
    var run := [first, second];
    assert run[1..] == [second] && [second][1..] == [];
    OneMore(t, [second], u);
    OneMore(EMPTY, run, t);
    assert End(EMPTY, run) == u;
    assert Overclaimed(End(EMPTY, run), 0, 0);
  }

  lemma {:induction false} BackoffMonotone(m: nat, n: nat)
    requires m <= n
    ensures Backoff(m) <= Backoff(n)
    decreases n
  {
    Pow2Monotone(m, n);
  }

  /** The delay grows to its ceiling of ten minutes, reached at the seventh
      attempt and not before. */
  lemma BackoffCeiling(n: nat)
    ensures Backoff(n) <= 600 * SECOND
    ensures Backoff(n) == 600 * SECOND <==> 7 <= n
    ensures n < 6 ==> Backoff(n + 1) == 2 * Backoff(n)
    ensures n == 0 ==> Backoff(n) == 5 * SECOND
  {
    assert Pow2(6) == 64 && Pow2(7) == 128;
    if 7 <= n {
      Pow2Monotone(7, n);
    } else {
      Pow2Monotone(n, 6);
      if n < 6 {
        Pow2Monotone(n + 1, 6);
      }
    }
  }

  /** A job's time of eligibility never moves back. */
  lemma StepDelays(s: World, e: Timed, id: JobId)
    requires Consistent(s) && Enabled(s, e)
    requires id in s.jobs && id in After(s, e).jobs
    ensures s.jobs[id].runAfter <= After(s, e).jobs[id].runAfter
  {
    assert RowOk(s, id);
    if e.0.Finish? {
      assert HoldOk(s, e.0.worker);
    }
  }

  /** Once a failure has put a job back, whatever happens next, no claim of it
      comes before the failure's time plus the backoff of its attempts. */
  lemma {:induction false} RetryWaits(s: World, run: seq<Timed>, id: JobId, due: int, k: nat)
    requires Consistent(s) && Legal(s, run)
    requires id in s.tallies && (id in s.jobs ==> due <= s.jobs[id].runAfter)
    requires k < |run| && run[k].0.Claim? && run[k].0.id == id
    ensures due <= run[k].1
    decreases run
  {
    if k > 0 {
      var t := After(s, run[0]);
      StepKeepsConsistent(s, run[0]);
      if id in s.jobs && id in t.jobs {
        StepDelays(s, run[0], id);
      }
      assert run[1..][k - 1] == run[k];
      RetryWaits(t, run[1..], id, due, k - 1);
    }
  }

  lemma FailedRunWaits(s: World, w: WorkerId, now: int, run: seq<Timed>, k: nat)
    requires Consistent(s) && Enabled(s, (Finish(w, Raised), now))
    requires var id := s.holds[w].job; id in s.jobs && s.jobs[id].attempts < s.jobs[id].maxAttempts
    requires Legal(After(s, (Finish(w, Raised), now)), run)
    requires k < |run| && run[k].0.Claim? && run[k].0.id == s.holds[w].job
    ensures now + Backoff(s.jobs[s.holds[w].job].attempts) <= run[k].1
  {
    var t := After(s, (Finish(w, Raised), now));
    StepKeepsConsistent(s, (Finish(w, Raised), now));
    assert HoldOk(s, w);
    RetryWaits(t, run, s.holds[w].job, t.jobs[s.holds[w].job].runAfter, k);
  }

  // ---- What a report leaves -------------------------------------------------

  /** A worker reports on the job it holds. */
  ghost predicate Reports(s: World, e: Timed, id: JobId)
  {
    Enabled(s, e) && e.0.Finish? && s.holds[e.0.worker].job == id
  }

  /** The handler raised and the job has used its attempts, or it has none. */
  ghost predicate GivesUp(s: World, e: Timed, id: JobId)
    requires id in s.jobs && Reports(s, e, id)
  {
    e.0.outcome == NoHandler || (e.0.outcome == Raised && s.jobs[id].attempts >= s.jobs[id].maxAttempts)
  }

  function Lesser(m: int, n: int): int {
    if m <= n then m else n
  }

  /** Success exactly when the worker returned; failure exactly when it gave up;
      otherwise another attempt, 5 * 2^attempts seconds from now but no more than
      ten minutes. The lock is gone, and no other row is touched. */
  lemma ReportIs(s: World, e: Timed, id: JobId)
    requires Reports(s, e, id) && id in s.jobs
    ensures var t := After(s, e);
            var was, row := s.jobs[id], t.jobs[id];
            && t.jobs.Keys == s.jobs.Keys && (forall k <- s.jobs :: k != id ==> t.jobs[k] == s.jobs[k])
            && row.lockedAt == None && row.attempts == was.attempts && row.maxAttempts == was.maxAttempts
            && (row.status == SUCCEEDED <==> e.0.outcome == Returned)
            && (row.status == FAILED <==> GivesUp(s, e, id))
            && (row.status == PENDING <==> e.0.outcome == Raised && was.attempts < was.maxAttempts)
            && row.runAfter == if row.status == PENDING
                               then e.1 + 1_000_000 * Lesser(5 * Pow2(was.attempts), 600) else was.runAfter
  {
  }

  /** A claim starts the next attempt of a due, pending job and locks it. */
  lemma ClaimIs(s: World, w: WorkerId, id: JobId, now: int)
    requires Enabled(s, (Claim(w, id), now))
    ensures s.jobs[id].status == PENDING && s.jobs[id].runAfter <= now
    ensures var t := After(s, (Claim(w, id), now));
            && t.jobs.Keys == s.jobs.Keys && (forall k <- s.jobs :: k != id ==> t.jobs[k] == s.jobs[k])
            && t.jobs[id].status == RUNNING && t.jobs[id].lockedAt == Some(now)
            && t.jobs[id].attempts == s.jobs[id].attempts + 1 && t.jobs[id].maxAttempts == s.jobs[id].maxAttempts
            && t.holds == s.holds[w := Hold(id, now)]
  {
  }

  /** A release puts back, to be run at once, exactly the jobs locked for more
      than five minutes. */
  lemma ReleaseIs(s: World, now: int, id: JobId)
    requires Enabled(s, (ReleaseStuck, now)) && id in s.jobs
    ensures var t := After(s, (ReleaseStuck, now));
            && t.jobs.Keys == s.jobs.Keys
            && var was, row, locked := s.jobs[id], t.jobs[id], s.jobs[id].lockedAt;
               if was.status == RUNNING && locked.Some? && locked.value < now - 300_000_000
               then row.status == PENDING && row.lockedAt == None && row.attempts == was.attempts
                    && row.maxAttempts == was.maxAttempts && row.runAfter == was.runAfter
               else row == was
  {
  }

  /** A sweep with a retention of some days deletes exactly the finished jobs
      last written before it; with none it deletes nothing. */
  lemma PruneIs(s: World, days: int, now: int, id: JobId)
    requires Enabled(s, (Prune(days), now)) && id in s.jobs
    ensures var t := After(s, (Prune(days), now));
            var row := s.jobs[id];
            && t.jobs.Keys <= s.jobs.Keys && (id in t.jobs ==> t.jobs[id] == row)
            && (id !in t.jobs <==> 0 < days && (row.status == SUCCEEDED || row.status == FAILED)
                                   && row.updatedAt < now - days * 86_400_000_000)
  {
  }

  /** The state before the run's event `k`. */
  ghost function At(s: World, run: seq<Timed>, k: nat): World
    requires Legal(s, run) && k <= |run|
    decreases run
  {
    if k == 0 then s else At(After(s, run[0]), run[1..], k - 1)
  }

  lemma {:induction false} AtEnabled(s: World, run: seq<Timed>, k: nat)
    requires Legal(s, run) && k < |run|
    ensures Enabled(At(s, run, k), run[k])
    decreases run
  {
    if k > 0 {
      AtEnabled(After(s, run[0]), run[1..], k - 1);
    }
  }

  lemma {:induction false} AtNext(s: World, run: seq<Timed>, k: nat)
    requires Legal(s, run) && k < |run|
    ensures Enabled(At(s, run, k), run[k]) && At(s, run, k + 1) == After(At(s, run, k), run[k])
    decreases run
  {
    if k == 0 {
      assert At(s, run, 1) == At(After(s, run[0]), run[1..], 0);
    } else {
      AtNext(After(s, run[0]), run[1..], k - 1);
    }
  }

  lemma {:induction false} AtConsistent(s: World, run: seq<Timed>, k: nat)
    requires Consistent(s) && Legal(s, run) && k <= |run|
    ensures Consistent(At(s, run, k))
    decreases k
  {
    if k > 0 {
      AtConsistent(s, run, k - 1);
      AtNext(s, run, k - 1);
      StepKeepsConsistent(At(s, run, k - 1), run[k - 1]);
    }
  }

  /** Event `k` of the run reports on a job that is still there. */
  ghost predicate ReportsAt(s: World, run: seq<Timed>, id: JobId, k: nat)
    requires Legal(s, run) && k < |run|
  {
    id in At(s, run, k).jobs && Reports(At(s, run, k), run[k], id)
  }

  ghost predicate Returns(e: Event) {
    e.Finish? && e.outcome == Returned
  }

  /** Among the first `n` events a worker that held the job returned, and none
      that held it reported anything else after that. */
  ghost predicate ReturnedLast(s: World, run: seq<Timed>, id: JobId, n: nat)
    requires Legal(s, run) && n <= |run|
  {
    exists k: nat | k < n :: ReturnedAt(s, run, id, n, k)
  }

  ghost predicate ReturnedAt(s: World, run: seq<Timed>, id: JobId, n: nat, k: nat)
    requires Legal(s, run) && k < n <= |run|
  {
    && ReportsAt(s, run, id, k) && Returns(run[k].0)
    && forall j: nat | k < j < n :: ReportsAt(s, run, id, j) ==> Returns(run[j].0)
  }

  ghost predicate Succeeded(s: World, id: JobId)
  {
    id in s.jobs && s.jobs[id].status == SUCCEEDED
  }

  /** Anything but a report leaves a succeeded row succeeded and no other row
      so, unless it prunes it. */
  lemma NoReport(s: World, e: Timed, id: JobId)
    requires Consistent(s) && Enabled(s, e) && !(id in s.jobs && Reports(s, e, id))
    ensures id in After(s, e).jobs ==> (Succeeded(After(s, e), id) <==> Succeeded(s, id))
    ensures id !in s.tallies ==> id !in s.jobs
    ensures id in After(s, e).jobs && id !in s.jobs ==> id !in s.tallies
  {
    if id in s.jobs {
      assert RowOk(s, id);
    }
  }

  lemma RowsTallied(s: World)
    requires Consistent(s)
    ensures s.jobs.Keys <= s.tallies.Keys
  {
    forall id | id in s.jobs
      ensures id in s.tallies
    {
      assert RowOk(s, id);
    }
  }

  /** A job that has not been queued yet has not been reported on. */
  lemma {:induction false} NotYet(run: seq<Timed>, id: JobId, n: nat, k: nat)
    requires Legal(EMPTY, run) && k < n <= |run| && id !in At(EMPTY, run, n).tallies
    ensures !ReportsAt(EMPTY, run, id, k)
    decreases n
  {
    AtConsistent(EMPTY, run, k);
    AtNext(EMPTY, run, n - 1);
    assert At(EMPTY, run, n - 1).tallies.Keys <= At(EMPTY, run, n).tallies.Keys;
    if k < n - 1 {
      NotYet(run, id, n - 1, k);
    } else {
      RowsTallied(At(EMPTY, run, k));
    }
  }

  lemma ReturnedStep(s: World, run: seq<Timed>, id: JobId, n: nat)
    requires Legal(s, run) && n < |run|
    ensures ReportsAt(s, run, id, n) ==> (ReturnedLast(s, run, id, n + 1) <==> Returns(run[n].0))
    ensures !ReportsAt(s, run, id, n) ==> (ReturnedLast(s, run, id, n + 1) <==> ReturnedLast(s, run, id, n))
  {
    if ReportsAt(s, run, id, n) {
      if Returns(run[n].0) {
        assert ReturnedAt(s, run, id, n + 1, n);
      }
    } else if ReturnedLast(s, run, id, n) {
      var k: nat :| k < n && ReturnedAt(s, run, id, n, k);
      assert ReturnedAt(s, run, id, n + 1, k);
    } else if ReturnedLast(s, run, id, n + 1) {
      var k: nat :| k < n + 1 && ReturnedAt(s, run, id, n + 1, k);
      assert k < n && ReturnedAt(s, run, id, n, k);
    }
  }

  /** Over every run, a row is SUCCEEDED exactly when the last report of any
      worker that held the job was that it returned. */
  lemma {:induction false} SucceededIffReturned(run: seq<Timed>, id: JobId, n: nat)
    requires Legal(EMPTY, run) && n <= |run| && id in At(EMPTY, run, n).jobs
    ensures At(EMPTY, run, n).jobs[id].status == SUCCEEDED <==> ReturnedLast(EMPTY, run, id, n)
    decreases n
  {
    if n > 0 {
      var s := At(EMPTY, run, n - 1);
      AtConsistent(EMPTY, run, n - 1);
      AtNext(EMPTY, run, n - 1);
      ReturnedStep(EMPTY, run, id, n - 1);
      if ReportsAt(EMPTY, run, id, n - 1) {
        ReportIs(s, run[n - 1], id);
      } else {
        NoReport(s, run[n - 1], id);
        if id in s.jobs {
          SucceededIffReturned(run, id, n - 1);
        } else {
          forall k: nat | k < n - 1
            ensures !ReportsAt(EMPTY, run, id, k)
          {
            NotYet(run, id, n - 1, k);
          }
        }
      }
    }
  }

  // ---- Timely runs: lease safety --------------------------------------------

  /** A worker that can still finish: it is within the lease of its claim. */
  ghost predicate Live(h: Hold, now: int)
  {
    now <= h.since + LEASE
  }

  /** Each worker either finishes within the lease of its claim, or never. */
  ghost predicate TimelyStep(s: World, e: Timed)
  {
    Enabled(s, e) && (e.0.Finish? ==> Live(s.holds[e.0.worker], e.1))
  }

  ghost predicate Timely(s: World, run: seq<Timed>)
    decreases run
  {
    run == [] || (TimelyStep(s, run[0]) && Timely(After(s, run[0]), run[1..]))
  }

  ghost predicate HoldsItsJob(s: World, w: WorkerId)
    requires w in s.holds
  {
    var h := s.holds[w];
    h.job in s.jobs && s.jobs[h.job].status == RUNNING && s.jobs[h.job].lockedAt == Some(h.since)
  }

  /** Every live worker's job is running and locked since that worker's claim,
      and no two live workers hold the same job. */
  ghost predicate LeaseSafe(s: World)
  {
    && (forall w <- s.holds :: Live(s.holds[w], s.now) ==> HoldsItsJob(s, w))
    && (forall v <- s.holds, w <- s.holds :: v != w && Live(s.holds[v], s.now) && Live(s.holds[w], s.now)
          ==> s.holds[v].job != s.holds[w].job)
  }

  lemma StepKeepsLeaseSafe(s: World, e: Timed)
    requires LeaseSafe(s) && TimelyStep(s, e) && Consistent(s)
    ensures LeaseSafe(After(s, e))
  {
    var t := After(s, e);
    forall w | w in t.holds && Live(t.holds[w], t.now)
      ensures HoldsItsJob(t, w)
    {
      LiveKept(s, e, w);
    }
    forall v, w | v in t.holds && w in t.holds && v != w && Live(t.holds[v], t.now) && Live(t.holds[w], t.now)
      ensures t.holds[v].job != t.holds[w].job
    {
      if v in s.holds {
        assert HoldsItsJob(s, v);
      }
      if w in s.holds {
        assert HoldsItsJob(s, w);
      }
    }
  }

  lemma LiveKept(s: World, e: Timed, w: WorkerId)
    requires LeaseSafe(s) && TimelyStep(s, e) && Consistent(s)
    requires w in After(s, e).holds && Live(After(s, e).holds[w], e.1)
    ensures HoldsItsJob(After(s, e), w)
  {
    if !e.0.Claim? && !e.0.Finish? {
      assert HoldsItsJob(s, w);
      RowsElsewhere(s, e, s.holds[w].job);
    }
  }

  /** A running row within its lease is left alone by housekeeping, by new jobs
      and by crashes. */
  lemma RowsElsewhere(s: World, e: Timed, id: JobId)
    requires Consistent(s) && Enabled(s, e) && !e.0.Claim? && !e.0.Finish?
    requires id in s.jobs && s.jobs[id].status == RUNNING && s.jobs[id].lockedAt.Some?
    requires e.1 - LEASE <= s.jobs[id].lockedAt.value
    ensures id in After(s, e).jobs && After(s, e).jobs[id] == s.jobs[id]
  {
    assert RowOk(s, id);
  }

  /** Within a timely step, a finished job changes only by being pruned. */
  lemma StepKeepsTerminal(s: World, e: Timed, id: JobId)
    requires LeaseSafe(s) && TimelyStep(s, e) && Consistent(s)
    requires id in s.jobs && s.jobs[id].Terminal()
    ensures id in After(s, e).jobs ==> After(s, e).jobs[id] == s.jobs[id]
  {
    assert RowOk(s, id);
    if e.0.Finish? {
      assert HoldOk(s, e.0.worker);
    }
  }

  lemma {:induction false} TimelyIsLegal(s: World, run: seq<Timed>)
    requires Timely(s, run)
    ensures Legal(s, run)
    decreases run
  {
    if run != [] {
      TimelyIsLegal(After(s, run[0]), run[1..]);
    }
  }

  /** In every timely run no two live workers ever hold the same job. */
  lemma {:induction false} LeaseSafety(s: World, run: seq<Timed>)
    requires LeaseSafe(s) && Consistent(s) && Timely(s, run)
    ensures Legal(s, run)
    ensures LeaseSafe(End(s, run)) && Consistent(End(s, run))
    decreases run
  {
    TimelyIsLegal(s, run);
    if run != [] {
      StepKeepsLeaseSafe(s, run[0]);
      StepKeepsConsistent(s, run[0]);
      LeaseSafety(After(s, run[0]), run[1..]);
    }
  }

  /** In every timely run SUCCEEDED and FAILED are absorbing: at the end the row
      is the same row, or it has been pruned. */
  lemma {:induction false} TerminalAbsorbing(s: World, run: seq<Timed>, id: JobId)
    requires LeaseSafe(s) && Consistent(s) && Timely(s, run)
    requires id in s.tallies && (id in s.jobs ==> s.jobs[id].Terminal())
    ensures Legal(s, run)
    ensures id in End(s, run).jobs ==> id in s.jobs && End(s, run).jobs[id] == s.jobs[id]
    decreases run
  {
    TimelyIsLegal(s, run);
    if run != [] {
      var t := After(s, run[0]);
      if id in s.jobs {
        StepKeepsTerminal(s, run[0], id);
      }
      StepKeepsLeaseSafe(s, run[0]);
      StepKeepsConsistent(s, run[0]);
      TerminalAbsorbing(t, run[1..], id);
    }
  }

  // ---- When a finished job comes back ---------------------------------------

  /** A worker that still holds a finished job reports a failure, and the job
      has attempts left. */
  ghost predicate Revives(s: World, e: Timed, id: JobId)
    requires id in s.jobs && Enabled(s, e)
  {
    e.0.Finish? && s.holds[e.0.worker].job == id && e.0.outcome == Raised
      && s.jobs[id].attempts < s.jobs[id].maxAttempts
  }

  /** Terminal, or pruned. */
  ghost predicate Over(s: World, id: JobId)
  {
    id in s.jobs ==> s.jobs[id].Terminal()
  }

  /** A step brings a finished job back exactly then. */
  lemma StepRevives(s: World, e: Timed, id: JobId)
    requires Consistent(s) && Enabled(s, e) && id in s.jobs && s.jobs[id].Terminal()
    ensures !Over(After(s, e), id) <==> Revives(s, e, id)
  {
    assert RowOk(s, id);
  }

  ghost predicate RevivedAt(s: World, run: seq<Timed>, id: JobId, k: nat)
    requires Legal(s, run) && k < |run|
  {
    AtEnabled(s, run, k);
    id in At(s, run, k).jobs && Revives(At(s, run, k), run[k], id)
  }

  ghost predicate StaysOver(s: World, run: seq<Timed>, id: JobId)
    requires Legal(s, run)
  {
    forall k: nat | k <= |run| :: Over(At(s, run, k), id)
  }

  /** Over any run, workers that outlive their lease included: SUCCEEDED and
      FAILED last exactly as long as no worker still holding the finished job
      reports a failure while attempts are left. */
  lemma {:induction false} TerminalUntilRevived(s: World, run: seq<Timed>, id: JobId)
    requires Consistent(s) && Legal(s, run) && id in s.tallies && Over(s, id)
    ensures StaysOver(s, run, id) <==> forall k: nat | k < |run| :: !RevivedAt(s, run, id, k)
    decreases run
  {
    if run == [] {
      assert forall k: nat | k <= |run| :: At(s, run, k) == s;
    } else {
      var t := After(s, run[0]);
      StepKeepsConsistent(s, run[0]);
      StaysOverNext(s, run, id);
      RevivedNext(s, run, id);
      if id in s.jobs {
        StepRevives(s, run[0], id);
      }
      if Over(t, id) {
        TerminalUntilRevived(t, run[1..], id);
      }
    }
  }

  lemma StaysOverNext(s: World, run: seq<Timed>, id: JobId)
    requires Legal(s, run) && run != [] && Over(s, id)
    ensures StaysOver(s, run, id) <==> StaysOver(After(s, run[0]), run[1..], id)
    ensures StaysOver(s, run, id) ==> Over(After(s, run[0]), id)
  {
    var t := After(s, run[0]);
    assert forall k: nat | k <= |run[1..]| :: At(t, run[1..], k) == At(s, run, k + 1);
    assert forall k: nat | k <= |run| :: k == 0 || At(s, run, k) == At(t, run[1..], k - 1);
    assert At(t, run[1..], 0) == t;
  }

  lemma RevivedNext(s: World, run: seq<Timed>, id: JobId)
    requires Legal(s, run) && run != []
    ensures (forall k: nat | k < |run| :: !RevivedAt(s, run, id, k))
       <==> !(id in s.jobs && Revives(s, run[0], id))
            && forall k: nat | k < |run[1..]| :: !RevivedAt(After(s, run[0]), run[1..], id, k)
  {
    var t := After(s, run[0]);
    assert RevivedAt(s, run, id, 0) <==> id in s.jobs && Revives(s, run[0], id);
    assert forall k: nat | k < |run[1..]| :: RevivedAt(t, run[1..], id, k) <==> RevivedAt(s, run, id, k + 1);
    assert forall k: nat | k < |run| :: k == 0 || (RevivedAt(s, run, id, k) <==> RevivedAt(t, run[1..], id, k - 1));
  }

  /** It happens: worker 1 outlives its lease, worker 2 is given the job and
      completes it, and worker 1 then fails and puts the completed job back. */
  lemma StaleFailureRevives()
    ensures Legal(EMPTY, STALE)
    ensures exists s, e :: Consistent(s) && Enabled(s, e) && 0 in s.jobs && s.jobs[0].status == SUCCEEDED
                           && s == End(EMPTY, STALE) && 0 in After(s, e).jobs
                           && After(s, e).jobs[0].status == PENDING
  {
    StaleRun();
    var s := End(EMPTY, STALE);
    RunsStayConsistent(EMPTY, STALE);
    var e: Timed := (Finish(1, Raised), LEASE + 2);
    assert Enabled(s, e);
  }

  const STALE: seq<Timed> := [
    (Enqueue(0, 5, 0), 0), (Claim(1, 0), 0), (ReleaseStuck, LEASE + 1), (Claim(2, 0), LEASE + 1),
    (Finish(2, Returned), LEASE + 2)]

  /** The states of that run, one event at a time. */
  lemma StaleSteps() returns (s1: World, s2: World, s3: World, s4: World, s5: World)
    ensures Enabled(EMPTY, STALE[0]) && After(EMPTY, STALE[0]) == s1
    ensures Enabled(s1, STALE[1]) && After(s1, STALE[1]) == s2
    ensures Enabled(s2, STALE[2]) && After(s2, STALE[2]) == s3
    ensures Enabled(s3, STALE[3]) && After(s3, STALE[3]) == s4
    ensures Enabled(s4, STALE[4]) && After(s4, STALE[4]) == s5
    ensures s5.holds == map[1 := Hold(0, 0)] && s5.jobs == map[0 := Job(SUCCEEDED, 2, 5, 0, None, LEASE + 2)]
    ensures s5.now == LEASE + 2
  {
    s1 := After(EMPTY, STALE[0]);
    s2 := After(s1, STALE[1]);
    s3 := After(s2, STALE[2]);
    s4 := After(s3, STALE[3]);
    s5 := After(s4, STALE[4]);
  }

  lemma StaleRun()
    ensures Legal(EMPTY, STALE)
    ensures var s := End(EMPTY, STALE);
            s.holds == map[1 := Hold(0, 0)] && s.jobs == map[0 := Job(SUCCEEDED, 2, 5, 0, None, LEASE + 2)]
            && s.now == LEASE + 2
  {
    var s1, s2, s3, s4, s5 := StaleSteps();
    assert STALE[4..][1..] == [] && STALE[3..][1..] == STALE[4..] && STALE[2..][1..] == STALE[3..];
    assert STALE[1..][1..] == STALE[2..];
    OneMore(s4, STALE[4..], s5);
    OneMore(s3, STALE[3..], s4);
    OneMore(s2, STALE[2..], s3);
    OneMore(s1, STALE[1..], s2);
    OneMore(EMPTY, STALE, s1);
  }
}
