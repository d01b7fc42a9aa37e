/** What the lease and grace periods guarantee over whole runs of the scheduler, whatever else
    happens to its tables. */
module CronTiming {
  import opened Common
  import opened CronTypes
  import opened HermesMerge
  import opened CronStatements
  import opened CronEnvironment
  import opened CronScheduler
  import opened CronWorld

  // ---------------------------------------------------------------------
  // Leases.
  // ---------------------------------------------------------------------

  /** The probe finds the run's owner alive. */
  predicate OwnerAlive(run: Run, alive: nat -> bool) {
    var pid := ProbePid(run.ownerPid);
    pid.Some? && pid.value != 0 && alive(pid.value)
  }

  /** Over every run: a claim attempt that ends somebody's run comes at least 30 minutes after
      that run's last sign of life, and at least 150 minutes after it if the owner is alive. */
  lemma ReclaimedOnlyWhenStale(w0: World, run: seq<Event>, q: Request, r: RunId)
    requires Inv(w0) && LegalRun(w0, run)
    requires var w := Exec(w0, run);
             Legal(w, ClaimEvent(q)) && IsRunning(w, r) && !IsRunning(Step(w, ClaimEvent(q)), r)
    ensures var w := Exec(w0, run);
            && r in w.touched
            && q.now >= w.touched[r] + 30 * MINUTE
            && (OwnerAlive(w.db.runs[r], q.alive) ==> q.now >= w.touched[r] + 150 * MINUTE)
  {
    ExecKeepsInv(w0, run);
    var w := Exec(w0, run);
    assert HoldsLease(w, r);
    ClaimLeavesOthers(w.db, q);
  }

  predicate Deletes(e: Event, j: JobId) {
    e.OutsideEvent? && e.o == Delete(j)
  }

  /** Claims of the job of `r` come less than 30 minutes after `r` was claimed or last refreshed,
      and none of the events is its own completion. */
  ghost predicate KeptFresh(w: World, run: seq<Event>, r: RunId)
    decreases |run|
  {
    run == [] || (KeepsFresh(w, run[0], r) && KeptFresh(Step(w, run[0]), run[1..], r))
  }

  predicate KeepsFresh(w: World, e: Event, r: RunId) {
    && r in w.claims && r in w.touched
    && (e.ClaimEvent? && e.q.job == w.claims[r].jobId ==> e.q.now < w.touched[r] + 30 * MINUTE)
    && !(e.FinishEvent? && e.runId == r)
  }

  lemma ClaimKeepsFreshRun(w: World, q: Request, r: RunId)
    requires q.runId !in w.db.runs && IsRunning(w, r) && HoldsLease(w, r)
    requires q.job == w.db.runs[r].job ==> q.now < w.touched[r] + 30 * MINUTE
    ensures IsRunning(Step(w, ClaimEvent(q)), r)
  {
    ClaimLeavesOthers(w.db, q);
  }

  lemma FinishKeepsOthers(w: World, e: Event, r: RunId)
    requires e.FinishEvent? && e.runId in w.claims && w.claims[e.runId].runId == e.runId && e.runId != r && IsRunning(w, r)
    ensures IsRunning(Step(w, e), r) && Step(w, e).db.runs[r] == w.db.runs[r]
  {
    CompleteEffect(w.db, w.claims[e.runId], e.outcome, e.at, e.scheduled, e.listing);
  }

  lemma ClaimsAreKept(w: World, e: Event, r: RunId)
    requires Legal(w, e) && r in w.claims
    ensures r in Step(w, e).claims && Step(w, e).claims[r] == w.claims[r]
  {
  }

  lemma StepKeepsFreshRun(w: World, e: Event, r: RunId)
    requires Inv(w) && Legal(w, e) && IsRunning(w, r) && KeepsFresh(w, e, r)
    ensures IsRunning(Step(w, e), r) || Deletes(e, w.claims[r].jobId)
  {
    assert HoldsLease(w, r);
    match e
    case ClaimEvent(q) => ClaimKeepsFreshRun(w, q, r);
    case RefreshEvent(r', at) => RefreshRow(w, r', at, r);
    case FinishEvent(_, _, _, _, _) => FinishKeepsOthers(w, e, r);
    case OutsideEvent(o) => OutsideLeavesRuns(w.db, o);
  }

  /** A run refreshed at gaps strictly under 30 minutes is never taken from its owner: it goes on
      running unless its job is deleted. */
  lemma {:induction false} RefreshedRunSurvives(w: World, run: seq<Event>, r: RunId)
    requires Inv(w) && LegalRun(w, run) && IsRunning(w, r) && KeptFresh(w, run, r)
    ensures IsRunning(Exec(w, run), r) || exists i :: 0 <= i < |run| && Deletes(run[i], w.claims[r].jobId)
    decreases |run|
  {
    if run != [] && !Deletes(run[0], w.claims[r].jobId) {
      StepKeepsFreshRun(w, run[0], r);
      ClaimsAreKept(w, run[0], r);
      StepKeepsInv(w, run[0]);
      RefreshedRunSurvives(Step(w, run[0]), run[1..], r);
      if i :| 0 <= i < |run[1..]| && Deletes(run[1..][i], w.claims[r].jobId) {
        assert Deletes(run[i + 1], w.claims[r].jobId);
      }
    }
  }

  // ---------------------------------------------------------------------
  // One-shots.
  // ---------------------------------------------------------------------

  /** Armed for `due`, whatever runs it has had before. */
  predicate Armed(w: World, j: JobId, due: Time) {
    && j in w.db.jobs
    && IsOneShot(w.db.jobs[j].expression)
    && w.db.jobs[j].enabled
    && w.db.jobs[j].nextRunAt == Some(due)
  }

  /** What the law is about: time does not run backwards, polls and not manual triggers claim `j`,
      and others leave its expression and payload alone and its next run as it is, or clear it.
      Pausing, resynchronising an unchanged source, pruning, and whatever is done to other jobs
      are all among this. */
  predicate Suits(w: World, e: Event, j: JobId) {
    && (!e.OutsideEvent? ==> w.clock <= e.When())
    && (e.ClaimEvent? && e.q.job == j ==> e.q.requireDue)
    && (e.OutsideEvent? ==> LeavesArmed(w.db, Apply(w.db, e.o), j))
  }

  predicate LeavesArmed(db: Db, db': Db, j: JobId) {
    j in db.jobs ==>
      && j in db'.jobs
      && db'.jobs[j].expression == db.jobs[j].expression
      && db'.jobs[j].payload == db.jobs[j].payload
      && (db'.jobs[j].nextRunAt == db.jobs[j].nextRunAt || db'.jobs[j].nextRunAt == None)
  }

  ghost predicate AllSuit(w: World, run: seq<Event>, j: JobId)
    decreases |run|
  {
    run == [] || (Suits(w, run[0], j) && AllSuit(Step(w, run[0]), run[1..], j))
  }

  /** `r` is a claim of `j` that is not among the earlier ones in `past`. */
  predicate IsFurther(claims: map<RunId, Claim>, r: RunId, j: JobId, past: set<RunId>) {
    r in claims && claims[r].jobId == j && r !in past
  }

  /** The one run an armed one-shot may get: started in its window, and then running under
      a lease that outlasts the window, or over with the job unarmed or the window long gone. */
  ghost predicate InWindow(w: World, r: RunId, j: JobId, due: Time) {
    && r in w.claims && r in w.started && j in w.db.jobs
    && due <= w.started[r] <= due + ONESHOT_GRACE_DURATION
    && w.started[r] <= w.clock
    && if IsRunning(w, r)
       then && w.claims[r].advanceSchedule
            && RowUnchanged(w.db, w.claims[r])
            && w.db.runs[r].leaseExpiresAt >= w.started[r] + LEASE_DURATION
       else w.db.jobs[j].nextRunAt == None || w.clock >= w.started[r] + LEASE_DURATION
  }

  ghost predicate OneShotRow(w: World, j: JobId, due: Time) {
    && j in w.db.jobs
    && IsOneShot(w.db.jobs[j].expression)
    && (w.db.jobs[j].nextRunAt == Some(due) || w.db.jobs[j].nextRunAt == None)
  }

  ghost predicate AtMostOneFurther(claims: map<RunId, Claim>, j: JobId, past: set<RunId>) {
    forall r1, r2 :: IsFurther(claims, r1, j, past) && IsFurther(claims, r2, j, past) ==> r1 == r2
  }

  /** Everything that can become of an armed one-shot. */
  ghost predicate OneShotInv(w: World, j: JobId, due: Time, past: set<RunId>) {
    && past <= w.claims.Keys
    && OneShotRow(w, j, due)
    && AtMostOneFurther(w.claims, j, past)
    && (forall r :: IsFurther(w.claims, r, j, past) ==> InWindow(w, r, j, due))
  }

  /** A running run whose lease may not be reclaimed keeps every claim away. */
  lemma LiveRunBlocks(db: Db, q: Request, r: RunId)
    requires q.runId !in db.runs
    requires r in db.runs && db.runs[r].job == q.job && db.runs[r].status == Running
    requires !Reclaimable(db.runs[r], q.now, q.alive)
    ensures ClaimJob(db, q).claim.None?
  {
    var db1 := ReclaimExpired(db, q.job, q.now, q.alive);
    assert db1.runs[r] == db.runs[r];
    assert HasRunning(db1, q.job);
    assert HasRunning(db, q.job);
  }

  /** While a first run is known, in whatever state, no poll inserts a second one. */
  lemma NoSecondClaim(w: World, q: Request, j: JobId, due: Time, r: RunId)
    requires Inv(w) && Legal(w, ClaimEvent(q)) && Suits(w, ClaimEvent(q), j) && q.job == j
    requires OneShotRow(w, j, due) && r in w.claims && w.claims[r].jobId == j && InWindow(w, r, j, due)
    ensures ClaimJob(w.db, q).claim.None?
  {
    if IsRunning(w, r) && q.now <= due + ONESHOT_GRACE_DURATION {
      LiveRunBlocks(w.db, q, r);
    } else {
      ClaimEffect(w.db, q);
    }
  }

  lemma NewRunInWindow(w: World, q: Request, j: JobId, due: Time)
    requires Inv(w) && Legal(w, ClaimEvent(q)) && Suits(w, ClaimEvent(q), j) && OneShotRow(w, j, due)
    requires ClaimJob(w.db, q).claim.Some? && q.job == j
    ensures InWindow(Step(w, ClaimEvent(q)), q.runId, j, due)
  {
    ClaimEffect(w.db, q);
  }

  /** A claim leaves the row of `j` as it is, or retires it. */
  lemma ClaimKeepsNext(w: World, q: Request, j: JobId)
    requires q.runId !in w.db.runs && j in w.db.jobs
    ensures var jobs' := Step(w, ClaimEvent(q)).db.jobs;
            && j in jobs' && jobs'[j].expression == w.db.jobs[j].expression
            && (jobs'[j].nextRunAt == w.db.jobs[j].nextRunAt || jobs'[j].nextRunAt == None)
  {
    ClaimEffect(w.db, q);
  }

  lemma OldRunStaysInWindow(w: World, q: Request, j: JobId, due: Time, r: RunId)
    requires Inv(w) && Legal(w, ClaimEvent(q)) && Suits(w, ClaimEvent(q), j)
    requires r in w.claims && w.claims[r].jobId == j && InWindow(w, r, j, due)
    ensures InWindow(Step(w, ClaimEvent(q)), r, j, due)
  {
    var w' := Step(w, ClaimEvent(q));
    ClaimKeepsNext(w, q, j);
    ClaimsAreKept(w, ClaimEvent(q), r);
    assert w'.started[r] == w.started[r] && w'.clock == q.now;
    if IsRunning(w', r) {
      OldRunWasRunning(w, q, r);
      ClaimSparesRow(w, q, r);
      LeaseIsKept(w, q, r);
    } else if IsRunning(w, r) {
      LostRunWasLast(w, q, r);
    }
  }

  lemma LeaseIsKept(w: World, q: Request, r: RunId)
    requires q.runId !in w.db.runs && r in w.db.runs
    ensures r in Step(w, ClaimEvent(q)).db.runs
    ensures Step(w, ClaimEvent(q)).db.runs[r].leaseExpiresAt == w.db.runs[r].leaseExpiresAt
  {
    ClaimLeavesOthers(w.db, q);
  }

  lemma ClaimKeepsOneShot(w: World, q: Request, j: JobId, due: Time, past: set<RunId>)
    requires Inv(w) && Legal(w, ClaimEvent(q)) && Suits(w, ClaimEvent(q), j) && OneShotInv(w, j, due, past)
    ensures OneShotInv(Step(w, ClaimEvent(q)), j, due, past)
  {
    var w' := Step(w, ClaimEvent(q));
    ClaimKeepsNext(w, q, j);
    forall r | IsFurther(w'.claims, r, j, past) ensures InWindow(w', r, j, due) {
      if r in w.claims {
        OldRunStaysInWindow(w, q, j, due, r);
      } else {
        NewClaimIsOf(w, q, j);
        NewRunInWindow(w, q, j, due);
      }
    }
    forall r1, r2 | IsFurther(w'.claims, r1, j, past) && IsFurther(w'.claims, r2, j, past) ensures r1 == r2 {
      ClaimKeepsFurther(w, q, j, due, past, r1, r2);
    }
  }

  lemma ClaimKeepsFurther(w: World, q: Request, j: JobId, due: Time, past: set<RunId>, r1: RunId, r2: RunId)
    requires Inv(w) && Legal(w, ClaimEvent(q)) && Suits(w, ClaimEvent(q), j) && OneShotInv(w, j, due, past)
    requires IsFurther(Step(w, ClaimEvent(q)).claims, r1, j, past) && IsFurther(Step(w, ClaimEvent(q)).claims, r2, j, past)
    ensures r1 == r2
  {
    if r1 in w.claims && r2 in w.claims {
      assert IsFurther(w.claims, r1, j, past) && IsFurther(w.claims, r2, j, past);
    } else if r1 != r2 {
      var earlier := if r1 in w.claims then r1 else r2;
      assert IsFurther(w.claims, earlier, j, past) && InWindow(w, earlier, j, due);
      NewClaimIsOf(w, q, j);
      NoSecondClaim(w, q, j, due, earlier);
    }
  }

  lemma NewClaimIsOf(w: World, q: Request, j: JobId)
    requires Legal(w, ClaimEvent(q)) && q.runId !in w.db.runs
    requires q.runId in Step(w, ClaimEvent(q)).claims && Step(w, ClaimEvent(q)).claims[q.runId].jobId == j
    ensures ClaimJob(w.db, q).claim.Some? && q.job == j
  {
    ClaimEffect(w.db, q);
  }

  lemma RefreshKeepsWindow(w: World, e: Event, j: JobId, due: Time, r: RunId)
    requires Owned(w) && DistinctTokens(w) && e.RefreshEvent? && e.runId in w.claims && w.clock <= e.at && InWindow(w, r, j, due)
    ensures InWindow(Step(w, e), r, j, due)
  {
    if r in w.db.runs {
      RefreshRow(w, e.runId, e.at, r);
    }
  }

  lemma RefreshKeepsOneShot(w: World, e: Event, j: JobId, due: Time, past: set<RunId>)
    requires Inv(w) && Legal(w, e) && e.RefreshEvent? && Suits(w, e, j) && OneShotInv(w, j, due, past)
    ensures OneShotInv(Step(w, e), j, due, past)
  {
    var w' := Step(w, e);
    forall r | IsFurther(w'.claims, r, j, past) ensures InWindow(w', r, j, due) {
      RefreshKeepsWindow(w, e, j, due, r);
    }
  }

  /** Completing any run leaves the row's next run as it is, or clears it. */
  lemma FinishKeepsNext(w: World, e: Event, j: JobId, due: Time)
    requires Inv(w) && Legal(w, e) && e.FinishEvent? && OneShotRow(w, j, due)
    ensures OneShotRow(Step(w, e), j, due)
    ensures w.db.jobs[j].nextRunAt == None ==> Step(w, e).db.jobs[j].nextRunAt == None
  {
    CompleteEffect(w.db, w.claims[e.runId], e.outcome, e.at, e.scheduled, e.listing);
  }

  /** The completion of a polled one-shot disarms it if and only if the row still has the
      expression and the payload that were claimed. */
  lemma CompletionDisarmsIff(db: Db, claim: Claim, outcome: Outcome, now: Time, scheduled: Option<Time>, listing: seq<RunId>)
    requires Owns(db, claim) && claim.advanceSchedule && IsOneShot(claim.job.expression)
    requires claim.jobId in db.jobs && db.jobs[claim.jobId].nextRunAt.Some?
    ensures var db' := Complete(db, claim, outcome, now, scheduled, listing);
            && claim.runId in db'.runs && db'.runs[claim.runId].status != Running
            && claim.jobId in db'.jobs
            && (db'.jobs[claim.jobId].nextRunAt == None <==> RowUnchanged(db, claim))
  {
  }

  lemma FinishKeepsWindow(w: World, e: Event, j: JobId, due: Time, r: RunId)
    requires Inv(w) && Legal(w, e) && e.FinishEvent? && Suits(w, e, j)
    requires OneShotRow(w, j, due) && r in w.claims && w.claims[r].jobId == j && InWindow(w, r, j, due)
    ensures InWindow(Step(w, e), r, j, due)
  {
    FinishKeepsNext(w, e, j, due);
    if IsRunning(w, r) {
      FinishWhileRunning(w, e, j, due, r);
    } else {
      CompleteEffect(w.db, w.claims[e.runId], e.outcome, e.at, e.scheduled, e.listing);
    }
  }

  lemma FinishWhileRunning(w: World, e: Event, j: JobId, due: Time, r: RunId)
    requires Inv(w) && Legal(w, e) && e.FinishEvent? && w.clock <= e.at
    requires OneShotRow(w, j, due) && r in w.claims && w.claims[r].jobId == j && InWindow(w, r, j, due) && IsRunning(w, r)
    ensures InWindow(Step(w, e), r, j, due)
  {
    if e.runId == r {
      OwnFinishDisarms(w, e, j, due);
    } else {
      FinishKeepsOthers(w, e, r);
      OtherFinishSparesRow(w, e, r);
    }
  }

  lemma OwnFinishDisarms(w: World, e: Event, j: JobId, due: Time)
    requires Inv(w) && Legal(w, e) && e.FinishEvent? && w.claims[e.runId].jobId == j && OneShotRow(w, j, due)
    requires IsRunning(w, e.runId) && w.claims[e.runId].advanceSchedule && RowUnchanged(w.db, w.claims[e.runId])
    ensures !IsRunning(Step(w, e), e.runId) && j in Step(w, e).db.jobs && Step(w, e).db.jobs[j].nextRunAt == None
  {
    var claim := w.claims[e.runId];
    CompleteEffect(w.db, claim, e.outcome, e.at, e.scheduled, e.listing);
    if w.db.jobs[j].nextRunAt.Some? {
      CompletionDisarmsIff(w.db, claim, e.outcome, e.at, e.scheduled, e.listing);
    } else {
      FinishKeepsNext(w, e, j, due);
    }
  }

  /** As long as `r` runs, no other run of its job can be completed. */
  lemma OtherFinishSparesRow(w: World, e: Event, r: RunId)
    requires Inv(w) && Legal(w, e) && e.FinishEvent? && e.runId != r && IsRunning(w, r)
    ensures var jobs, jobs', j := w.db.jobs, Step(w, e).db.jobs, w.db.runs[r].job;
            (j in jobs' <==> j in jobs) && (j in jobs ==> jobs'[j] == jobs[j])
  {
    var claim := w.claims[e.runId];
    CompleteEffect(w.db, claim, e.outcome, e.at, e.scheduled, e.listing);
    assert Owns(w.db, claim) ==> claim.jobId != w.db.runs[r].job;
  }

  lemma FinishKeepsOneShot(w: World, e: Event, j: JobId, due: Time, past: set<RunId>)
    requires Inv(w) && Legal(w, e) && e.FinishEvent? && Suits(w, e, j) && OneShotInv(w, j, due, past)
    ensures OneShotInv(Step(w, e), j, due, past)
  {
    var w' := Step(w, e);
    FinishKeepsNext(w, e, j, due);
    forall r | IsFurther(w'.claims, r, j, past) ensures InWindow(w', r, j, due) {
      assert IsFurther(w.claims, r, j, past);
      FinishKeepsWindow(w, e, j, due, r);
    }
  }

  lemma OutsideKeepsOneShot(w: World, e: Event, j: JobId, due: Time, past: set<RunId>)
    requires Inv(w) && e.OutsideEvent? && Suits(w, e, j) && OneShotInv(w, j, due, past)
    ensures OneShotInv(Step(w, e), j, due, past)
  {
    var w' := Step(w, e);
    OutsideLeavesRuns(w.db, e.o);
    forall r | IsFurther(w'.claims, r, j, past) ensures InWindow(w', r, j, due) {
      assert IsFurther(w.claims, r, j, past) && InWindow(w, r, j, due);
      assert e.o != Delete(j);
    }
  }

  lemma StepKeepsOneShot(w: World, e: Event, j: JobId, due: Time, past: set<RunId>)
    requires Inv(w) && Legal(w, e) && Suits(w, e, j) && OneShotInv(w, j, due, past)
    ensures OneShotInv(Step(w, e), j, due, past)
  {
    match e
    case ClaimEvent(q) => ClaimKeepsOneShot(w, q, j, due, past);
    case RefreshEvent(_, _) => RefreshKeepsOneShot(w, e, j, due, past);
    case FinishEvent(_, _, _, _, _) => FinishKeepsOneShot(w, e, j, due, past);
    case OutsideEvent(_) => OutsideKeepsOneShot(w, e, j, due, past);
  }

  lemma {:induction false} ExecKeepsOneShot(w: World, run: seq<Event>, j: JobId, due: Time, past: set<RunId>)
    requires Inv(w) && LegalRun(w, run) && AllSuit(w, run, j) && OneShotInv(w, j, due, past)
    ensures OneShotInv(Exec(w, run), j, due, past)
    decreases |run|
  {
    if run != [] {
      StepKeepsInv(w, run[0]);
      StepKeepsOneShot(w, run[0], j, due, past);
      ExecKeepsOneShot(Step(w, run[0]), run[1..], j, due, past);
    }
  }

  lemma ArmedStays(w: World, run: seq<Event>, j: JobId, due: Time)
    requires Inv(w) && LegalRun(w, run) && AllSuit(w, run, j) && Armed(w, j, due)
    ensures OneShotInv(Exec(w, run), j, due, w.claims.Keys)
  {
    ExecKeepsOneShot(w, run, j, due, w.claims.Keys);
  }

  /** From the moment it is armed, a one-shot is claimed at most once more, within 120 seconds
      after it was due, however many schedulers poll, whatever runs it has had, whether or not
      the run's owner survives, and even if the run is pruned. */
  lemma OneShotRunsOnce(w: World, run: seq<Event>, j: JobId, due: Time)
    requires Inv(w) && LegalRun(w, run) && AllSuit(w, run, j) && Armed(w, j, due)
    ensures var w', past := Exec(w, run), w.claims.Keys;
            && (forall r1, r2 :: IsFurther(w'.claims, r1, j, past) && IsFurther(w'.claims, r2, j, past) ==> r1 == r2)
            && (forall r :: IsFurther(w'.claims, r, j, past) ==>
                  r in w'.started && due <= w'.started[r] <= due + 120 * SECOND)
  {
    ArmedStays(w, run, j, due);
    var w', past := Exec(w, run), w.claims.Keys;
    forall r | IsFurther(w'.claims, r, j, past) ensures r in w'.started && due <= w'.started[r] <= due + 120 * SECOND {
      assert InWindow(w', r, j, due);
    }
  }

  function Retired(row: Job, now: Time): Job {
    row.(enabled := false, nextRunAt := None, payload := MissedPayload(row.payload, now), updatedAt := now)
  }

  /** The poll that takes that run away from a dead owner starts nothing. It retires the job as
      missed if and only if the job is still armed, its payload is readable and no cutover is
      pending for it; otherwise it leaves the row as it is. */
  lemma LostOneShotIsRetired(w: World, run: seq<Event>, j: JobId, due: Time, q: Request, r: RunId)
    requires Inv(w) && LegalRun(w, run) && AllSuit(w, run, j) && Armed(w, j, due)
    requires var v := Exec(w, run);
             && Legal(v, ClaimEvent(q)) && Suits(v, ClaimEvent(q), j) && q.job == j
             && IsRunning(v, r) && IsFurther(v.claims, r, j, w.claims.Keys) && !IsRunning(Step(v, ClaimEvent(q)), r)
    ensures var v, v' := Exec(w, run), Step(Exec(w, run), ClaimEvent(q));
            && j in v.db.jobs && j in v'.db.jobs && !HasRunning(v'.db, j)
            && var row := v.db.jobs[j];
            v'.db.jobs[j] ==
              if row.enabled && row.nextRunAt == Some(due) && row.authority != CutoverPending && !row.payload.Malformed?
              then Retired(row, q.now) else row
  {
    ExecKeepsInv(w, run);
    ArmedStays(w, run, j, due);
    var v := Exec(w, run);
    assert InWindow(v, r, j, due);
    LostRunWasLast(v, q, r);
    OverdueClaim(v.db, q);
  }

  /** A poll of a one-shot, of which nothing is left running, after its window. */
  lemma OverdueClaim(db: Db, q: Request)
    requires q.requireDue && !q.cutoverPending && q.job in db.jobs && IsOneShot(db.jobs[q.job].expression)
    requires db.jobs[q.job].nextRunAt.Some? ==> Overdue(db.jobs[q.job], q.now)
    requires !ShouldDisableAfter(ExtractRepeatInfo(db.jobs[q.job].payload))
    requires !HasRunning(ReclaimExpired(db, q.job, q.now, q.alive), q.job)
    ensures var row, c := db.jobs[q.job], ClaimJob(db, q);
            && c.claim.None? && !HasRunning(c.db, q.job) && q.job in c.db.jobs
            && c.db.jobs[q.job] ==
                 if row.enabled && row.nextRunAt.Some? && row.authority != CutoverPending && !row.payload.Malformed?
                 then Retired(row, q.now) else row
  {
    var db1 := ReclaimExpired(db, q.job, q.now, q.alive);
    assert db1.jobs == db.jobs;
    assert ClaimJob(db, q).db.runs == db1.runs;
  }

  lemma LostRunWasLast(v: World, q: Request, r: RunId)
    requires Inv(v) && Legal(v, ClaimEvent(q)) && IsRunning(v, r) && !IsRunning(Step(v, ClaimEvent(q)), r)
    ensures v.db.runs[r].job == q.job && !q.cutoverPending
    ensures !HasRunning(ReclaimExpired(v.db, q.job, q.now, q.alive), q.job)
    ensures q.now >= v.db.runs[r].leaseExpiresAt
  {
    ClaimLeavesOthers(v.db, q);
    var db1 := ReclaimExpired(v.db, q.job, q.now, q.alive);
    forall r' | r' in db1.runs && db1.runs[r'].job == q.job ensures db1.runs[r'].status != Running {
      assert r' in v.db.runs;
    }
  }

  // ---------------------------------------------------------------------
  // Where the source is edited while the one-shot runs.
  // ---------------------------------------------------------------------

  /** A mirrored one-shot for the epoch, with the given prompt. */
  function Mirrored(prompt: string): Job {
    Job("once:1970-01-01T00:00:00Z",
        Object(Repeat(Null, Number(0)), Missing, Missing, Null, Null, Null, Null, Text("jobs.json"), prompt),
        true, Some(0), 0, 0, HermesMirror)
  }

  function PollAt(now: Time, run: RunId, token: Token, attempt: nat): Request {
    Request("j", true, true, now, run, token, attempt, 1, (pid: nat) => true, false)
  }

  const EDITED_START: Db := Db(map["j" := Mirrored("a")], map[])

  /** Claimed after one second, edited and synchronised after two, and succeeded after three. */
  function EditedEnd(): Db {
    var first := ClaimJob(EDITED_START, PollAt(SECOND, "r1", "t1", 1));
    if first.claim.None? then EDITED_START
    else Complete(Apply(first.db, Mirror("j", Mirrored("b"))), first.claim.value, Success, 3 * SECOND, None, [])
  }

  lemma EditedClaim()
    ensures var first := ClaimJob(EDITED_START, PollAt(SECOND, "r1", "t1", 1));
            && first.claim == Some(Claim("r1", "t1", "j", Mirrored("a"), true))
            && first.db == Db(map["j" := Mirrored("a")], map["r1" := NewRun("j", "t1", SECOND, 1, 1)])
  {
    var q := PollAt(SECOND, "r1", "t1", 1);
    assert ReclaimExpired(EDITED_START, "j", q.now, q.alive) == EDITED_START;
    assert !HasRunning(EDITED_START, "j");
  }

  lemma EditedResult()
    ensures var db := EditedEnd();
            && db.jobs == map["j" := Mirrored("b")]
            && db.runs.Keys == {"r1"} && db.runs["r1"].job == "j" && db.runs["r1"].status == Succeeded
  {
    EditedClaim();
    assert Mirrored("a").payload.body[0] != Mirrored("b").payload.body[0];
    assert Merge(Mirrored("a"), Mirrored("b")) == Mirrored("b");
  }

  lemma NothingRuns(db: Db, q: Request)
    requires forall r :: r in db.runs ==> db.runs[r].status != Running
    ensures !HasRunning(ReclaimExpired(db, q.job, q.now, q.alive), q.job)
  {
  }

  /** The completion misses the edited row, which stays armed, and the next poll runs the one-shot
      a second time ... */
  lemma EditedOneShotRunsTwice()
    ensures "r1" in EditedEnd().runs && EditedEnd().runs["r1"].status == Succeeded
    ensures ClaimJob(EditedEnd(), PollAt(4 * SECOND, "r2", "t2", 2)).claim.Some?
  {
    EditedResult();
    NothingRuns(EditedEnd(), PollAt(4 * SECOND, "r2", "t2", 2));
  }

  /** ... or, after the window, marks it as missed, though it succeeded. */
  lemma EditedOneShotIsMissed()
    ensures var late := ClaimJob(EditedEnd(), PollAt(200 * SECOND, "r2", "t2", 2)).db.jobs;
            "j" in late && late["j"] == Retired(Mirrored("b"), 200 * SECOND)
  {
    EditedResult();
    NothingRuns(EditedEnd(), PollAt(200 * SECOND, "r2", "t2", 2));
    OverdueClaim(EditedEnd(), PollAt(200 * SECOND, "r2", "t2", 2));
  }
}
