/** Runs of the scheduler in which claims are atomic, among everything else that writes its
    tables, and with as many clocks as there are processes. */
module CronWorld {
  import opened Common
  import opened CronTypes
  import opened CronStatements
  import opened CronEnvironment
  import opened CronScheduler

  /** `claims` keeps every claim ever made and `started` when; `touched` remembers when each run
      was claimed or last refreshed; `finalised` counts the completions that ended a run, by job;
      `clock` is the last instant that a scheduler read. */
  datatype World = World(
    db: Db,
    claims: map<RunId, Claim>,
    started: map<RunId, Time>,
    touched: map<RunId, Time>,
    finalised: map<JobId, nat>,
    clock: Time)

  datatype Event =
    | ClaimEvent(q: Request)
    | RefreshEvent(runId: RunId, at: Time)
    | FinishEvent(runId: RunId, outcome: Outcome, at: Time, scheduled: Option<Time>, listing: seq<RunId>)
    /** Synchronisation, pruning, pausing, resuming, editing, deleting: of any job, at any time. */
    | OutsideEvent(o: Outside)
  {
    function When(): Time
      requires !OutsideEvent?
    {
      if ClaimEvent? then q.now else at
    }
  }

  /** Ids are fresh, and both callers of `claim_job` pass its two flags alike: set for the
      due jobs of a poll, clear for a manual trigger. */
  ghost predicate Legal(w: World, e: Event) {
    match e
    case ClaimEvent(q) =>
      && q.runId !in w.claims
      && (forall r :: r in w.claims ==> w.claims[r].token != q.token)
      && IsNextAttempt(w.db, q.job, q.attempt)
      && q.requireDue == q.advanceSchedule
    case OutsideEvent(o) => IsLawful(o)
    case _ => e.runId in w.claims
  }

  function Bump(counts: map<JobId, nat>, j: JobId): map<JobId, nat> {
    counts[j := 1 + if j in counts then counts[j] else 0]
  }

  function Step(w: World, e: Event): World {
    match e
    case ClaimEvent(q) =>
      var r := ClaimJob(w.db, q);
      if r.claim.Some?
      then w.(db := r.db, claims := w.claims[q.runId := r.claim.value], started := w.started[q.runId := q.now],
              touched := w.touched[q.runId := q.now], clock := q.now)
      else w.(db := r.db, clock := q.now)
    case RefreshEvent(runId, at) =>
      if runId in w.claims
      then w.(db := RefreshLease(w.db, w.claims[runId].token, at), touched := w.touched[runId := at], clock := at)
      else w
    case FinishEvent(runId, outcome, at, scheduled, listing) =>
      if runId in w.claims
      then
        var db := Complete(w.db, w.claims[runId], outcome, at, scheduled, listing);
        w.(db := db, clock := at,
           finalised := if db == w.db then w.finalised else Bump(w.finalised, w.claims[runId].jobId))
      else w
    case OutsideEvent(o) => w.(db := Apply(w.db, o))
  }

  ghost predicate LegalRun(w: World, run: seq<Event>)
    decreases |run|
  {
    run == [] || (Legal(w, run[0]) && LegalRun(Step(w, run[0]), run[1..]))
  }

  function Exec(w: World, run: seq<Event>): World
    decreases |run|
  {
    if run == [] then w else Exec(Step(w, run[0]), run[1..])
  }

  predicate IsRunning(w: World, r: RunId) {
    r in w.db.runs && w.db.runs[r].status == Running
  }

  ghost predicate Owned(w: World) {
    forall r :: r in w.db.runs ==>
      && r in w.claims
      && w.claims[r].token == w.db.runs[r].token
      && w.claims[r].jobId == w.db.runs[r].job
  }

  ghost predicate DistinctTokens(w: World) {
    && (forall r :: r in w.claims ==> w.claims[r].runId == r)
    && (forall r1, r2 :: r1 in w.claims && r2 in w.claims && w.claims[r1].token == w.claims[r2].token ==> r1 == r2)
  }

  /** A running run holds a lease counted from its last sign of life. */
  ghost predicate Leased(w: World) {
    forall r :: IsRunning(w, r) ==> HoldsLease(w, r)
  }

  predicate HoldsLease(w: World, r: RunId)
    requires r in w.db.runs
  {
    r in w.touched && w.db.runs[r].leaseExpiresAt == w.touched[r] + LEASE_DURATION
  }

  /** Starts are on record. */
  ghost predicate Recorded(w: World) {
    && w.started.Keys == w.claims.Keys
    && (forall r :: r in w.db.runs && r in w.started ==> w.db.runs[r].startedAt == w.started[r])
  }

  /** No claim was made at the repeat limit. */
  ghost predicate BelowLimit(w: World) {
    forall r :: r in w.claims ==> !ShouldDisableAfter(ExtractRepeatInfo(w.claims[r].job.payload))
  }

  /** What every state of every run satisfies. */
  ghost predicate Inv(w: World) {
    AtMostOneRunning(w.db) && Owned(w) && DistinctTokens(w) && Leased(w) && Recorded(w) && BelowLimit(w)
  }

  // ---------------------------------------------------------------------
  // One claim.
  // ---------------------------------------------------------------------

  /** A claim attempt reclaims, then retires or inserts: its effect on each table. */
  lemma ClaimEffect(db: Db, q: Request)
    requires q.runId !in db.runs
    ensures var c := ClaimJob(db, q);
            var db1 := if q.cutoverPending then db else ReclaimExpired(db, q.job, q.now, q.alive);
            && (c.claim.Some? ==>
                  && !HasRunning(db1, q.job)
                  && c.db.jobs == db.jobs
                  && c.db.runs == db1.runs[q.runId := NewRun(q.job, q.token, q.now, q.attempt, q.pid)]
                  && q.job in db.jobs
                  && c.claim.value == Claim(q.runId, q.token, q.job, db.jobs[q.job], q.advanceSchedule)
                  && !ShouldDisableAfter(ExtractRepeatInfo(db.jobs[q.job].payload))
                  && (q.requireDue ==> Due(db.jobs[q.job], q.now) && !Overdue(db.jobs[q.job], q.now)))
            && (c.claim.None? ==> c.db.runs == db1.runs)
            && (c.db.jobs != db.jobs ==>
                  && q.job in db.jobs
                  && !HasRunning(db1, q.job)
                  && q.requireDue && Overdue(db.jobs[q.job], q.now)
                  && c.db.jobs == db.jobs[q.job := db.jobs[q.job].(
                       enabled := false, nextRunAt := None,
                       payload := MissedPayload(db.jobs[q.job].payload, q.now), updatedAt := q.now)])
  {
  }

  /** The rows of the other runs: the same owner, job, start and lease, and no new life. */
  lemma ClaimLeavesOthers(db: Db, q: Request)
    requires q.runId !in db.runs
    ensures var db' := ClaimJob(db, q).db;
            && (forall r :: r in db.runs ==>
                  && r in db'.runs
                  && db'.runs[r].token == db.runs[r].token
                  && db'.runs[r].job == db.runs[r].job
                  && db'.runs[r].startedAt == db.runs[r].startedAt
                  && db'.runs[r].leaseExpiresAt == db.runs[r].leaseExpiresAt
                  && (db'.runs[r] == db.runs[r]
                      || (db.runs[r].job == q.job && Reclaimable(db.runs[r], q.now, q.alive) && db'.runs[r].status == Failed)))
            && (forall r :: r in db'.runs && r != q.runId ==> r in db.runs)
            && (ClaimJob(db, q).claim.None? ==> q.runId !in db'.runs)
  {
    ClaimEffect(db, q);
  }

  lemma ClaimKeepsExclusion(db: Db, q: Request)
    requires q.runId !in db.runs && AtMostOneRunning(db)
    ensures AtMostOneRunning(ClaimJob(db, q).db)
  {
    ClaimEffect(db, q);
    ClaimLeavesOthers(db, q);
    var c := ClaimJob(db, q);
    if c.claim.Some? {
      var db1 := ReclaimExpired(db, q.job, q.now, q.alive);
      forall r | r in c.db.runs && r != q.runId && c.db.runs[r].status == Running
        ensures c.db.runs[r].job != q.job
      {
        assert c.db.runs[r] == db1.runs[r];
      }
    }
  }

  lemma OwnersExtend(w: World, w': World, r0: RunId, c: Claim)
    requires Owned(w) && DistinctTokens(w)
    requires r0 !in w.claims && forall r :: r in w.claims ==> w.claims[r].token != c.token
    requires w'.claims == w.claims[r0 := c]
    requires forall r :: r in w'.db.runs && r != r0 ==>
               r in w.db.runs && w'.db.runs[r].token == w.db.runs[r].token && w'.db.runs[r].job == w.db.runs[r].job
    requires c.runId == r0
    requires r0 in w'.db.runs ==> c.token == w'.db.runs[r0].token && c.jobId == w'.db.runs[r0].job
    ensures Owned(w') && DistinctTokens(w')
  {
  }

  lemma ClaimKeepsOwners(w: World, q: Request)
    requires Inv(w) && Legal(w, ClaimEvent(q)) && q.runId !in w.db.runs
    ensures Owned(Step(w, ClaimEvent(q))) && DistinctTokens(Step(w, ClaimEvent(q)))
  {
    ClaimLeavesOthers(w.db, q);
    ClaimEffect(w.db, q);
    var c := ClaimJob(w.db, q);
    if c.claim.Some? {
      OwnersExtend(w, Step(w, ClaimEvent(q)), q.runId, c.claim.value);
    }
  }

  lemma ClaimKeepsLease(w: World, q: Request, r: RunId)
    requires Leased(w) && q.runId !in w.db.runs && IsRunning(Step(w, ClaimEvent(q)), r)
    ensures HoldsLease(Step(w, ClaimEvent(q)), r)
  {
    ClaimLeavesOthers(w.db, q);
    if r == q.runId {
      ClaimEffect(w.db, q);
    } else {
      assert IsRunning(w, r) && HoldsLease(w, r);
    }
  }

  lemma ClaimKeepsLeases(w: World, q: Request)
    requires Leased(w) && q.runId !in w.db.runs
    ensures Leased(Step(w, ClaimEvent(q)))
  {
    var w' := Step(w, ClaimEvent(q));
    forall r | IsRunning(w', r) ensures HoldsLease(w', r) {
      ClaimKeepsLease(w, q, r);
    }
  }

  lemma ClaimKeepsRecords(w: World, q: Request)
    requires Recorded(w) && q.runId !in w.db.runs
    ensures Recorded(Step(w, ClaimEvent(q)))
  {
    ClaimLeavesOthers(w.db, q);
    var w' := Step(w, ClaimEvent(q));
    if q.runId in w'.db.runs {
      ClaimEffect(w.db, q);
    }
  }

  lemma ClaimKeepsBelowLimit(w: World, q: Request)
    requires BelowLimit(w) && q.runId !in w.db.runs
    ensures BelowLimit(Step(w, ClaimEvent(q)))
  {
    ClaimEffect(w.db, q);
  }

  lemma ClaimKeepsInv(w: World, q: Request)
    requires Inv(w) && Legal(w, ClaimEvent(q))
    ensures Inv(Step(w, ClaimEvent(q)))
  {
    assert q.runId !in w.db.runs;
    ClaimKeepsExclusion(w.db, q);
    ClaimKeepsOwners(w, q);
    ClaimKeepsLeases(w, q);
    ClaimKeepsRecords(w, q);
    ClaimKeepsBelowLimit(w, q);
  }

  // ---------------------------------------------------------------------
  // The other events.
  // ---------------------------------------------------------------------

  lemma RefreshRow(w: World, r: RunId, at: Time, r': RunId)
    requires Owned(w) && DistinctTokens(w) && r in w.claims && r' in w.db.runs
    ensures var runs' := Step(w, RefreshEvent(r, at)).db.runs;
            && r' in runs'
            && runs'[r'] == if r' == r && IsRunning(w, r') then w.db.runs[r'].(leaseExpiresAt := at + LEASE_DURATION) else w.db.runs[r']
  {
  }

  /** A refresh moves the lease of the claim's own run, and only while it is running; every
      other row of both tables stays as it is. After it, no claim within 30 minutes takes the
      run away. */
  lemma RefreshEffect(w: World, r: RunId, at: Time)
    requires Inv(w) && r in w.claims
    ensures var w' := Step(w, RefreshEvent(r, at));
            && w'.db.jobs == w.db.jobs && w'.db.runs.Keys == w.db.runs.Keys
            && (forall r' :: r' in w.db.runs && r' != r ==> w'.db.runs[r'] == w.db.runs[r'])
            && (r in w.db.runs ==>
                  w'.db.runs[r] == if IsRunning(w, r) then w.db.runs[r].(leaseExpiresAt := at + 30 * MINUTE) else w.db.runs[r])
            && (IsRunning(w, r) ==> forall q: Request ::
                  q.runId !in w.db.runs && q.now < at + 30 * MINUTE ==>
                  r in ClaimJob(w'.db, q).db.runs && ClaimJob(w'.db, q).db.runs[r] == w'.db.runs[r])
  {
    var w' := Step(w, RefreshEvent(r, at));
    assert w'.db.runs.Keys == w.db.runs.Keys;
    forall r' | r' in w.db.runs ensures r' != r ==> w'.db.runs[r'] == w.db.runs[r'] {
      RefreshRow(w, r, at, r');
    }
    if IsRunning(w, r) {
      RefreshRow(w, r, at, r);
      forall q: Request | q.runId !in w.db.runs && q.now < at + 30 * MINUTE
        ensures r in ClaimJob(w'.db, q).db.runs && ClaimJob(w'.db, q).db.runs[r] == w'.db.runs[r]
      {
        ClaimLeavesOthers(w'.db, q);
      }
    }
  }

  /** The claims are the same, and every run was there before, with the same owner and start,
      and not revived. */
  ghost predicate OnlyEnds(w: World, w': World) {
    && w'.claims == w.claims && w'.started == w.started
    && forall r :: r in w'.db.runs ==> ComesFrom(w, w', r)
  }

  ghost predicate ComesFrom(w: World, w': World, r: RunId)
    requires r in w'.db.runs
  {
    && r in w.db.runs
    && w'.db.runs[r].token == w.db.runs[r].token
    && w'.db.runs[r].job == w.db.runs[r].job
    && w'.db.runs[r].startedAt == w.db.runs[r].startedAt
    && (w'.db.runs[r].status == Running ==> w.db.runs[r].status == Running)
  }

  lemma OnlyEndsKeepsInv(w: World, w': World)
    requires Inv(w) && OnlyEnds(w, w') && Leased(w')
    ensures Inv(w')
  {
    forall r1, r2 | r1 in w'.db.runs && r2 in w'.db.runs ensures ComesFrom(w, w', r1) && ComesFrom(w, w', r2) {}
  }

  lemma RefreshKeepsInv(w: World, e: Event)
    requires Inv(w) && e.RefreshEvent? && e.runId in w.claims
    ensures Inv(Step(w, e))
  {
    var w' := Step(w, e);
    forall r | r in w'.db.runs ensures ComesFrom(w, w', r) && (IsRunning(w', r) ==> HoldsLease(w', r)) {
      RefreshRow(w, e.runId, e.at, r);
      assert IsRunning(w, r) ==> HoldsLease(w, r);
    }
    OnlyEndsKeepsInv(w, w');
  }

  lemma FinishKeepsInv(w: World, e: Event)
    requires Inv(w) && e.FinishEvent? && e.runId in w.claims
    ensures Inv(Step(w, e))
  {
    var w' := Step(w, e);
    CompleteEffect(w.db, w.claims[e.runId], e.outcome, e.at, e.scheduled, e.listing);
    forall r | r in w'.db.runs ensures ComesFrom(w, w', r) && (IsRunning(w', r) ==> HoldsLease(w', r)) {
      assert IsRunning(w, r) ==> HoldsLease(w, r);
    }
    OnlyEndsKeepsInv(w, w');
  }

  lemma OutsideKeepsInv(w: World, e: Event)
    requires Inv(w) && e.OutsideEvent?
    ensures Inv(Step(w, e))
  {
    var w' := Step(w, e);
    OutsideLeavesRuns(w.db, e.o);
    forall r | r in w'.db.runs ensures ComesFrom(w, w', r) && (IsRunning(w', r) ==> HoldsLease(w', r)) {
      assert IsRunning(w, r) ==> HoldsLease(w, r);
    }
    OnlyEndsKeepsInv(w, w');
  }

  lemma StepKeepsInv(w: World, e: Event)
    requires Inv(w) && Legal(w, e)
    ensures Inv(Step(w, e))
  {
    match e
    case ClaimEvent(q) => ClaimKeepsInv(w, q);
    case RefreshEvent(_, _) => RefreshKeepsInv(w, e);
    case FinishEvent(_, _, _, _, _) => FinishKeepsInv(w, e);
    case OutsideEvent(_) => OutsideKeepsInv(w, e);
  }

  lemma {:induction false} ExecKeepsInv(w: World, run: seq<Event>)
    requires Inv(w) && LegalRun(w, run)
    ensures Inv(Exec(w, run))
    decreases |run|
  {
    if run != [] {
      StepKeepsInv(w, run[0]);
      ExecKeepsInv(Step(w, run[0]), run[1..]);
    }
  }

  // ---------------------------------------------------------------------
  // One job, as long as nobody else changes its definition.
  // ---------------------------------------------------------------------

  /** Expression, payload and switch of `j` are the same in both tables. */
  predicate SameDefinition(db: Db, db': Db, j: JobId) {
    j in db.jobs ==>
      && j in db'.jobs
      && db'.jobs[j].expression == db.jobs[j].expression
      && db'.jobs[j].payload == db.jobs[j].payload
      && db'.jobs[j].enabled == db.jobs[j].enabled
  }

  /** An outside event that leaves the definition of `j` alone: a change of any other job, pruning,
      a resynchronisation of an unchanged source. */
  predicate Spares(w: World, e: Event, j: JobId) {
    e.OutsideEvent? ==> SameDefinition(w.db, Apply(w.db, e.o), j)
  }

  /** The running run of `j`, if any, was claimed on the row as it still is. */
  ghost predicate Undisturbed(w: World, j: JobId) {
    forall r :: IsRunning(w, r) && w.db.runs[r].job == j ==> Current(w, r)
  }

  ghost predicate Current(w: World, r: RunId) {
    && r in w.claims
    && RowUnchanged(w.db, w.claims[r])
    && (w.claims[r].advanceSchedule ==> w.db.jobs[w.claims[r].jobId].enabled)
  }

  lemma ClaimKeepsUndisturbed(w: World, q: Request, j: JobId)
    requires Inv(w) && Legal(w, ClaimEvent(q)) && Undisturbed(w, j)
    ensures Undisturbed(Step(w, ClaimEvent(q)), j)
  {
    var w' := Step(w, ClaimEvent(q));
    forall r | IsRunning(w', r) && w'.db.runs[r].job == j ensures Current(w', r) {
      ClaimKeepsCurrent(w, q, r);
    }
  }

  lemma ClaimKeepsCurrent(w: World, q: Request, r: RunId)
    requires Inv(w) && Legal(w, ClaimEvent(q)) && IsRunning(Step(w, ClaimEvent(q)), r)
    requires Undisturbed(w, Step(w, ClaimEvent(q)).db.runs[r].job)
    ensures Current(Step(w, ClaimEvent(q)), r)
  {
    if r == q.runId {
      NewRunIsCurrent(w, q);
    } else {
      OldRunStaysCurrent(w, q, r);
    }
  }

  lemma NewRunIsCurrent(w: World, q: Request)
    requires Inv(w) && Legal(w, ClaimEvent(q)) && q.runId in Step(w, ClaimEvent(q)).db.runs
    ensures Current(Step(w, ClaimEvent(q)), q.runId)
  {
    ClaimEffect(w.db, q);
    ClaimLeavesOthers(w.db, q);
  }

  lemma OldRunStaysCurrent(w: World, q: Request, r: RunId)
    requires Inv(w) && Legal(w, ClaimEvent(q)) && r != q.runId && IsRunning(Step(w, ClaimEvent(q)), r)
    requires Undisturbed(w, Step(w, ClaimEvent(q)).db.runs[r].job)
    ensures Current(Step(w, ClaimEvent(q)), r)
  {
    OldRunWasRunning(w, q, r);
    assert Current(w, r);
    ClaimSparesRow(w, q, r);
  }

  lemma OldRunWasRunning(w: World, q: Request, r: RunId)
    requires q.runId !in w.db.runs && r != q.runId && IsRunning(Step(w, ClaimEvent(q)), r)
    ensures IsRunning(w, r) && Step(w, ClaimEvent(q)).db.runs[r].job == w.db.runs[r].job
  {
    ClaimLeavesOthers(w.db, q);
  }

  /** A claim changes a row only to retire it, which a running run prevents. */
  lemma ClaimSparesRow(w: World, q: Request, r: RunId)
    requires Inv(w) && Legal(w, ClaimEvent(q)) && IsRunning(w, r) && IsRunning(Step(w, ClaimEvent(q)), r)
    ensures var jobs, jobs', j := w.db.jobs, Step(w, ClaimEvent(q)).db.jobs, w.db.runs[r].job;
            (j in jobs' <==> j in jobs) && (j in jobs ==> jobs'[j] == jobs[j])
  {
    ClaimEffect(w.db, q);
    ClaimLeavesOthers(w.db, q);
    var db1 := ReclaimExpired(w.db, q.job, q.now, q.alive);
    assert !q.cutoverPending && w.db.runs[r].job == q.job ==> HasRunning(db1, q.job);
  }

  lemma FinishKeepsUndisturbed(w: World, e: Event, j: JobId)
    requires Inv(w) && Legal(w, e) && e.FinishEvent? && Undisturbed(w, j)
    ensures Undisturbed(Step(w, e), j)
  {
    var w' := Step(w, e);
    CompleteEffect(w.db, w.claims[e.runId], e.outcome, e.at, e.scheduled, e.listing);
    forall r | IsRunning(w', r) && w'.db.runs[r].job == j ensures Current(w', r) {
      assert IsRunning(w, r) && Current(w, r);
    }
  }

  lemma OutsideKeepsUndisturbed(w: World, e: Event, j: JobId)
    requires e.OutsideEvent? && Undisturbed(w, j) && Spares(w, e, j) && Owned(w)
    ensures Undisturbed(Step(w, e), j)
  {
    var w' := Step(w, e);
    OutsideLeavesRuns(w.db, e.o);
    forall r | IsRunning(w', r) && w'.db.runs[r].job == j ensures Current(w', r) {
      assert IsRunning(w, r) && Current(w, r);
    }
  }

  lemma RefreshKeepsUndisturbed(w: World, r: RunId, at: Time, j: JobId)
    requires Inv(w) && r in w.claims && Undisturbed(w, j)
    ensures Undisturbed(Step(w, RefreshEvent(r, at)), j)
  {
    var w' := Step(w, RefreshEvent(r, at));
    forall r' | IsRunning(w', r') && w'.db.runs[r'].job == j ensures Current(w', r') {
      RefreshRow(w, r, at, r');
      assert Current(w, r');
    }
  }

  lemma StepKeepsUndisturbed(w: World, e: Event, j: JobId)
    requires Inv(w) && Legal(w, e) && Undisturbed(w, j) && Spares(w, e, j)
    ensures Undisturbed(Step(w, e), j)
  {
    match e
    case ClaimEvent(q) => ClaimKeepsUndisturbed(w, q, j);
    case RefreshEvent(r, at) => RefreshKeepsUndisturbed(w, r, at, j);
    case FinishEvent(_, _, _, _, _) => FinishKeepsUndisturbed(w, e, j);
    case OutsideEvent(o) => OutsideKeepsUndisturbed(w, e, j);
  }

  /** Tables without runs, whatever their jobs, are a possible beginning. */
  lemma NoRunsIsInv(jobs: map<JobId, Job>, clock: Time)
    ensures var w := World(Db(jobs, map[]), map[], map[], map[], map[], clock);
            Inv(w) && forall j :: Undisturbed(w, j)
  {
  }
}
