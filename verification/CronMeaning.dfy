/** Claims and completions in the terms of the rows themselves: exactly when a claim succeeds, and
    every member that claims and completions write. */
module CronMeaning {
  import opened Common
  import opened CronTypes
  import opened CronStatements
  import opened CronEnvironment
  import opened CronScheduler
  import opened CronWorld

  // ---------------------------------------------------------------------
  // Claims.
  // ---------------------------------------------------------------------

  function NumberOr0(f: Field): nat {
    if f.Number? then f.n else 0
  }

  predicate IsBelow(times: Field, completed: Field) {
    times.Number? && times.n > 0 ==> NumberOr0(completed) < times.n
  }

  /** The payload sets no limit, or has not reached it; `repeat` hides what stands beside it. */
  predicate HasRepeatsLeft(p: Payload) {
    p.Object? ==>
      match p.repeat
      case Repeat(times, completed) => IsBelow(times, completed)
      case NotAnObject(_) => true
      case NoRepeat => IsBelow(p.times, p.completed)
  }

  /** The lease is over, and the owner is gone, unknown, or two hours late. */
  predicate IsAbandoned(run: Run, now: Time, alive: nat -> bool) {
    && run.leaseExpiresAt <= now
    && (|| now - run.leaseExpiresAt >= 120 * MINUTE
        || run.ownerPid.None?
        || run.ownerPid.value <= 0
        || run.ownerPid.value % 0x1_0000_0000 == 0
        || !alive(run.ownerPid.value % 0x1_0000_0000))
  }

  /** Nothing of the job runs that is not abandoned. */
  ghost predicate IsFree(db: Db, j: JobId, now: Time, alive: nat -> bool) {
    forall r :: r in db.runs && db.runs[r].job == j && db.runs[r].status == Running ==> IsAbandoned(db.runs[r], now, alive)
  }

  predicate IsLate(row: Job, now: Time) {
    "once:" <= row.expression && row.nextRunAt.Some? && now - row.nextRunAt.value > 120 * SECOND
  }

  /** No cutover, the job exists, and its repeats are not used up. */
  predicate IsOpen(db: Db, q: Request) {
    && !q.cutoverPending && q.job in db.jobs
    && db.jobs[q.job].authority != CutoverPending && HasRepeatsLeft(db.jobs[q.job].payload)
  }

  ghost predicate MayClaim(db: Db, q: Request) {
    && IsOpen(db, q)
    && var row := db.jobs[q.job];
    && (q.requireDue ==> row.enabled && row.nextRunAt.Some? && row.nextRunAt.value <= q.now && !IsLate(row, q.now))
    && IsFree(db, q.job, q.now, q.alive)
  }

  ghost predicate MayRetire(db: Db, q: Request) {
    && IsOpen(db, q) && q.requireDue
    && db.jobs[q.job].enabled && IsLate(db.jobs[q.job], q.now) && !db.jobs[q.job].payload.Malformed?
    && IsFree(db, q.job, q.now, q.alive)
  }

  lemma RepeatsLeftIff(p: Payload)
    ensures HasRepeatsLeft(p) <==> !ShouldDisableAfter(ExtractRepeatInfo(p))
  {
  }

  lemma AbandonedIff(run: Run, now: Time, alive: nat -> bool)
    ensures run.status == Running && IsAbandoned(run, now, alive) <==> Reclaimable(run, now, alive)
  {
  }

  lemma FreeIff(db: Db, j: JobId, now: Time, alive: nat -> bool)
    ensures IsFree(db, j, now, alive) <==> !HasRunning(ReclaimExpired(db, j, now, alive), j)
  {
    var db1 := ReclaimExpired(db, j, now, alive);
    if !IsFree(db, j, now, alive) {
      var r :| r in db.runs && db.runs[r].job == j && db.runs[r].status == Running && !IsAbandoned(db.runs[r], now, alive);
      AbandonedIff(db.runs[r], now, alive);
      assert r in db1.runs && db1.runs[r] == db.runs[r];
    } else {
      forall r | r in db1.runs && db1.runs[r].job == j ensures db1.runs[r].status != Running {
        AbandonedIff(db.runs[r], now, alive);
      }
    }
  }

  /** A claim succeeds if and only if no cutover is pending, the job exists, is not being cut over
      and has repeats left; for a poll, is on, due, and no one-shot more than 120 seconds late; and
      whatever runs of it is abandoned. */
  lemma ClaimedIff(db: Db, q: Request)
    ensures ClaimJob(db, q).claim.Some? <==> MayClaim(db, q)
  {
    FreeIff(db, q.job, q.now, q.alive);
    if q.job in db.jobs {
      RepeatsLeftIff(db.jobs[q.job].payload);
    }
  }

  /** The claim and the row it inserts. */
  lemma ClaimInserts(db: Db, q: Request)
    requires q.runId !in db.runs && MayClaim(db, q)
    ensures var c := ClaimJob(db, q);
            && c.claim == Some(Claim(q.runId, q.token, q.job, db.jobs[q.job], q.advanceSchedule))
            && q.runId in c.db.runs
            && c.db.runs[q.runId] == Run(q.job, q.token, q.now + 30 * MINUTE, q.now, None, Running, q.attempt, None, Some(q.pid))
            && c.db.jobs == db.jobs
  {
    ClaimedIff(db, q);
    ClaimEffect(db, q);
  }

  /** What becomes of the runs that are there: abandoned ones of the job are recorded as failed. */
  lemma ClaimReclaims(db: Db, q: Request, r: RunId)
    requires q.runId !in db.runs && r in db.runs
    ensures var run, runs' := db.runs[r], ClaimJob(db, q).db.runs;
            && r in runs'
            && runs'[r] ==
                 if !q.cutoverPending && run.job == q.job && run.status == Running && IsAbandoned(run, q.now, q.alive)
                 then run.(status := Failed, completedAt := Some(q.now),
                           error := if run.error.Some? then run.error else Some("lease expired before completion"))
                 else run
  {
    AbandonedIff(db.runs[r], q.now, q.alive);
    ClaimEffect(db, q);
  }

  /** Nothing else appears in `cron_runs`. */
  lemma ClaimAddsNoOther(db: Db, q: Request, r: RunId)
    requires q.runId !in db.runs && r !in db.runs
    ensures r in ClaimJob(db, q).db.runs <==> r == q.runId && MayClaim(db, q)
  {
    ClaimedIff(db, q);
    ClaimEffect(db, q);
  }

  /** A poll retires an overdue one-shot that is free; otherwise it leaves all jobs as they are. */
  lemma ClaimRetires(db: Db, q: Request)
    ensures ClaimJob(db, q).db.jobs ==
              if !MayRetire(db, q) then db.jobs
              else
                var row := db.jobs[q.job];
                var payload :=
                  if row.payload.Object?
                  then row.payload.(lastStatus := Text("missed"), lastRunAt := Instant(q.now),
                                    lastError := Text("missed: overdue unclaimed one-shot past grace"), lastDeliveryError := Null)
                  else row.payload;
                db.jobs[q.job := row.(enabled := false, nextRunAt := None, payload := payload, updatedAt := q.now)]
  {
    FreeIff(db, q.job, q.now, q.alive);
    if q.job in db.jobs {
      RepeatsLeftIff(db.jobs[q.job].payload);
    }
  }

  // ---------------------------------------------------------------------
  // Completions.
  // ---------------------------------------------------------------------

  /** What an unreadable payload is taken for. */
  function Readable(p: Payload): Payload {
    if p.Malformed? then Object(NoRepeat, Missing, Missing, Missing, Missing, Missing, Missing, Missing, "") else p
  }

  function OneMore(completed: Field): nat {
    (NumberOr0(completed) + 1) % 0x1_0000_0000_0000_0000
  }

  /** The repeat limit that counts, and the count after this run. */
  predicate UsesUp(p: Payload) {
    p.Object? &&
    if p.repeat.Repeat? then p.repeat.times.Number? && 0 < p.repeat.times.n <= OneMore(p.repeat.completed)
    else p.times.Number? && 0 < p.times.n <= OneMore(p.completed)
  }

  /** The payload `p'` is `p` with one more run counted and its result; all else is as it was. */
  predicate IsRecorded(p: Payload, p': Payload, outcome: Outcome, at: Time) {
    if !p.Object? then p' == p
    else
      var counted :=
        if p.repeat.Repeat? then p.(repeat := Repeat(p.repeat.times, Number(OneMore(p.repeat.completed))))
        else if p.times.Number? then p.(completed := Number(OneMore(p.completed)))
        else p.(repeat := Repeat(Missing, Number(OneMore(p.completed))));
      match outcome
      case Success =>
        p' == counted.(lastStatus := Text("succeeded"), lastRunAt := Instant(at), lastError := Null, lastDeliveryError := Null)
      case Failure(error, isDeliveryError) =>
        p' == counted.(lastStatus := Text("failed"), lastRunAt := Instant(at), lastError := Text(error),
                       lastDeliveryError := if isDeliveryError then Text(error) else Null)
  }

  lemma RecordedIs(claim: Claim, outcome: Outcome, at: Time)
    ensures IsRecorded(Readable(claim.job.payload), CompletedPayload(claim, outcome, at), outcome, at)
    ensures LimitReached(claim) <==> UsesUp(Readable(claim.job.payload))
  {
  }

  /** The job row after a completion that ended its run, member by member. */
  predicate IsCompleted(row: Job, row': Job, claim: Claim, outcome: Outcome, at: Time, scheduled: Option<Time>, failures: nat) {
    var p := Readable(claim.job.payload);
    var over := "once:" <= claim.job.expression || UsesUp(p);
    var written := row'.updatedAt == at && IsRecorded(p, row'.payload, outcome, at)
                   && row'.expression == row.expression && row'.createdAt == row.createdAt && row'.authority == row.authority;
    if !claim.advanceSchedule then
      written && row'.enabled == row.enabled && row'.nextRunAt == row.nextRunAt
    else if over || (outcome.Failure? && scheduled.None?) then
      written && !row'.enabled && row'.nextRunAt == None
    else if !row.enabled then
      row' == row
    else
      && written && row'.enabled
      && row'.nextRunAt ==
           if outcome.Success? then scheduled
           else Some(Max(scheduled.value, at + FailureBackoffSeconds(failures) * SECOND))
  }

  /** A completion that commits writes the row it was claimed on exactly so, and no other. */
  lemma CompletionWrites(db: Db, claim: Claim, outcome: Outcome, at: Time, scheduled: Option<Time>, listing: seq<RunId>)
    requires Owns(db, claim) && RowUnchanged(db, claim)
    requires !(outcome.Success? && claim.advanceSchedule && scheduled.None?
               && !("once:" <= claim.job.expression) && !UsesUp(Readable(claim.job.payload)))
    ensures var finished := FinishRun(db, claim, if outcome.Success? then Succeeded else Failed,
                                      if outcome.Failure? then Some(outcome.error) else None, at);
            var jobs' := Complete(db, claim, outcome, at, scheduled, listing).jobs;
            && claim.jobId in jobs'
            && jobs' == db.jobs[claim.jobId := jobs'[claim.jobId]]
            && IsCompleted(db.jobs[claim.jobId], jobs'[claim.jobId], claim, outcome, at, scheduled,
                           LeadingFailures(finished.runs, listing))
  {
    RecordedIs(claim, outcome, at);
  }

  // ---------------------------------------------------------------------
  // A recurring job waits for its next instant.
  // ---------------------------------------------------------------------

  /** Until `t` the job is not due, and nothing runs that would move its schedule. */
  ghost predicate WaitsUntil(w: World, j: JobId, t: Time) {
    && (j in w.db.jobs ==> NotBefore(w.db.jobs[j], t))
    && forall r :: IsRunning(w, r) && w.db.runs[r].job == j ==> r in w.claims && !w.claims[r].advanceSchedule
  }

  predicate NotBefore(row: Job, t: Time) {
    row.nextRunAt.Some? ==> row.nextRunAt.value >= t
  }

  /** Polls of `j` come before `t`, and nobody else arms it for an instant before `t`. */
  predicate Waits(w: World, e: Event, j: JobId, t: Time) {
    && (e.ClaimEvent? && e.q.job == j && e.q.requireDue ==> e.q.now < t)
    && (e.OutsideEvent? ==>
          var jobs' := Apply(w.db, e.o).jobs;
          j in jobs' ==> NotBefore(jobs'[j], t))
  }

  lemma NotClaimedEarly(w: World, q: Request, j: JobId, t: Time)
    requires WaitsUntil(w, j, t) && Waits(w, ClaimEvent(q), j, t) && q.job == j && q.requireDue
    ensures ClaimJob(w.db, q).claim.None?
  {
    ClaimedIff(w.db, q);
  }

  lemma ClaimArmsNothing(db: Db, q: Request, j: JobId, t: Time)
    requires j in db.jobs ==> NotBefore(db.jobs[j], t)
    ensures j in ClaimJob(db, q).db.jobs ==> NotBefore(ClaimJob(db, q).db.jobs[j], t)
  {
    ClaimRetires(db, q);
  }

  lemma StillManual(w: World, q: Request, j: JobId, t: Time, r: RunId)
    requires Inv(w) && Legal(w, ClaimEvent(q)) && WaitsUntil(w, j, t) && Waits(w, ClaimEvent(q), j, t)
    requires IsRunning(Step(w, ClaimEvent(q)), r) && Step(w, ClaimEvent(q)).db.runs[r].job == j
    ensures r in Step(w, ClaimEvent(q)).claims && !Step(w, ClaimEvent(q)).claims[r].advanceSchedule
  {
    if r == q.runId {
      NewRunIsManual(w, q, j, t);
    } else {
      OldRunWasRunning(w, q, r);
    }
  }

  lemma ClaimKeepsWaiting(w: World, q: Request, j: JobId, t: Time)
    requires Inv(w) && Legal(w, ClaimEvent(q)) && WaitsUntil(w, j, t) && Waits(w, ClaimEvent(q), j, t)
    ensures WaitsUntil(Step(w, ClaimEvent(q)), j, t)
  {
    var w' := Step(w, ClaimEvent(q));
    ClaimArmsNothing(w.db, q, j, t);
    assert w'.db == ClaimJob(w.db, q).db;
    forall r | IsRunning(w', r) && w'.db.runs[r].job == j ensures r in w'.claims && !w'.claims[r].advanceSchedule {
      StillManual(w, q, j, t, r);
    }
  }

  lemma NewRunIsManual(w: World, q: Request, j: JobId, t: Time)
    requires Inv(w) && Legal(w, ClaimEvent(q)) && WaitsUntil(w, j, t) && Waits(w, ClaimEvent(q), j, t)
    requires q.runId in Step(w, ClaimEvent(q)).db.runs && Step(w, ClaimEvent(q)).db.runs[q.runId].job == j
    ensures q.runId in Step(w, ClaimEvent(q)).claims && !Step(w, ClaimEvent(q)).claims[q.runId].advanceSchedule
  {
    ClaimAddsNoOther(w.db, q, q.runId);
    ClaimInserts(w.db, q);
    if q.requireDue {
      NotClaimedEarly(w, q, j, t);
    }
  }

  lemma FinishKeepsNextRun(w: World, e: Event, j: JobId, t: Time)
    requires Inv(w) && Legal(w, e) && e.FinishEvent? && WaitsUntil(w, j, t)
    ensures j in Step(w, e).db.jobs ==> NotBefore(Step(w, e).db.jobs[j], t)
  {
    var claim, w' := w.claims[e.runId], Step(w, e);
    CompleteEffect(w.db, claim, e.outcome, e.at, e.scheduled, e.listing);
    if w'.db != w.db && claim.jobId == j && j in w.db.jobs {
      assert IsRunning(w, e.runId);
      ManualKeepsNext(w.db, claim, e.outcome, e.at, e.scheduled, e.listing);
    }
  }

  lemma FinishKeepsWaiting(w: World, e: Event, j: JobId, t: Time)
    requires Inv(w) && Legal(w, e) && e.FinishEvent? && WaitsUntil(w, j, t)
    ensures WaitsUntil(Step(w, e), j, t)
  {
    var w' := Step(w, e);
    FinishKeepsNextRun(w, e, j, t);
    forall r | IsRunning(w', r) && w'.db.runs[r].job == j ensures r in w'.claims && !w'.claims[r].advanceSchedule {
      CompleteEffect(w.db, w.claims[e.runId], e.outcome, e.at, e.scheduled, e.listing);
      assert IsRunning(w, r);
    }
  }

  lemma ManualKeepsNext(db: Db, claim: Claim, outcome: Outcome, at: Time, scheduled: Option<Time>, listing: seq<RunId>)
    requires !claim.advanceSchedule && claim.jobId in db.jobs
    ensures var jobs' := Complete(db, claim, outcome, at, scheduled, listing).jobs;
            claim.jobId in jobs' && jobs'[claim.jobId].nextRunAt == db.jobs[claim.jobId].nextRunAt
  {
  }

  lemma RefreshKeepsWaiting(w: World, e: Event, j: JobId, t: Time)
    requires Inv(w) && Legal(w, e) && e.RefreshEvent? && WaitsUntil(w, j, t)
    ensures WaitsUntil(Step(w, e), j, t)
  {
    var w' := Step(w, e);
    forall r | IsRunning(w', r) && w'.db.runs[r].job == j ensures r in w'.claims && !w'.claims[r].advanceSchedule {
      RefreshRow(w, e.runId, e.at, r);
      assert IsRunning(w, r);
    }
  }

  lemma OutsideKeepsWaiting(w: World, e: Event, j: JobId, t: Time)
    requires e.OutsideEvent? && WaitsUntil(w, j, t) && Waits(w, e, j, t)
    ensures WaitsUntil(Step(w, e), j, t)
  {
    var w' := Step(w, e);
    OutsideLeavesRuns(w.db, e.o);
    forall r | IsRunning(w', r) && w'.db.runs[r].job == j ensures r in w'.claims && !w'.claims[r].advanceSchedule {
      assert IsRunning(w, r);
    }
  }

  ghost predicate AllWait(w: World, run: seq<Event>, j: JobId, t: Time)
    decreases |run|
  {
    run == [] || (Waits(w, run[0], j, t) && AllWait(Step(w, run[0]), run[1..], j, t))
  }

  lemma {:induction false} ExecKeepsWaiting(w: World, run: seq<Event>, j: JobId, t: Time)
    requires Inv(w) && LegalRun(w, run) && AllWait(w, run, j, t) && WaitsUntil(w, j, t)
    ensures WaitsUntil(Exec(w, run), j, t)
    decreases |run|
  {
    if run != [] {
      StepKeepsInv(w, run[0]);
      match run[0] {
        case ClaimEvent(q) => ClaimKeepsWaiting(w, q, j, t);
        case RefreshEvent(_, _) => RefreshKeepsWaiting(w, run[0], j, t);
        case FinishEvent(_, _, _, _, _) => FinishKeepsWaiting(w, run[0], j, t);
        case OutsideEvent(_) => OutsideKeepsWaiting(w, run[0], j, t);
      }
      ExecKeepsWaiting(Step(w, run[0]), run[1..], j, t);
    }
  }

  /** The row is written, and nothing of the job is left running. */
  lemma SuccessSchedules(w: World, e: Event)
    requires Inv(w) && Legal(w, e) && e.FinishEvent? && e.outcome.Success? && e.scheduled.Some?
    requires Owns(w.db, w.claims[e.runId]) && Recurs(w.claims[e.runId]) && RowUnchanged(w.db, w.claims[e.runId])
    requires w.db.jobs[w.claims[e.runId].jobId].enabled
    ensures WaitsUntil(Step(w, e), w.claims[e.runId].jobId, e.scheduled.value)
    ensures Step(w, e).db.jobs[w.claims[e.runId].jobId].nextRunAt == e.scheduled
  {
    var claim, w' := w.claims[e.runId], Step(w, e);
    RecordedIs(claim, e.outcome, e.at);
    CompletionWrites(w.db, claim, e.outcome, e.at, e.scheduled, e.listing);
    CompleteEffect(w.db, claim, e.outcome, e.at, e.scheduled, e.listing);
    forall r | IsRunning(w', r) ensures w'.db.runs[r].job != claim.jobId {
      assert IsRunning(w, r) && r != e.runId;
    }
  }

  /** After a recurring success the job's next run is the schedule's next instant, and over every run
      no poll before that instant claims the job, unless somebody else arms it earlier. */
  lemma SuccessWaitsForSchedule(w: World, e: Event, run: seq<Event>, q: Request)
    requires Inv(w) && Legal(w, e) && e.FinishEvent? && e.outcome.Success? && e.scheduled.Some?
    requires Owns(w.db, w.claims[e.runId]) && Recurs(w.claims[e.runId]) && RowUnchanged(w.db, w.claims[e.runId])
    requires w.db.jobs[w.claims[e.runId].jobId].enabled
    requires LegalRun(Step(w, e), run) && AllWait(Step(w, e), run, w.claims[e.runId].jobId, e.scheduled.value)
    requires q.job == w.claims[e.runId].jobId && q.requireDue && q.now < e.scheduled.value
    ensures Step(w, e).db.jobs[w.claims[e.runId].jobId].nextRunAt == e.scheduled
    ensures ClaimJob(Exec(Step(w, e), run).db, q).claim.None?
  {
    StepKeepsInv(w, e);
    SuccessSchedules(w, e);
    ExecKeepsWaiting(Step(w, e), run, q.job, e.scheduled.value);
    NotClaimedEarly(Exec(Step(w, e), run), q, q.job, e.scheduled.value);
  }

  // ---------------------------------------------------------------------
  // Operators and housekeeping.
  // ---------------------------------------------------------------------

  /** A paused job is off and unarmed, and no poll claims it. */
  lemma PauseStops(db: Db, j: JobId, now: Time, q: Request)
    requires q.job == j && q.requireDue
    ensures var db' := Apply(db, Pause(j, now));
            && db'.runs == db.runs && db'.jobs.Keys == db.jobs.Keys
            && (forall i :: i in db.jobs && i != j ==> db'.jobs[i] == db.jobs[i])
            && (j in db.jobs ==> db'.jobs[j] == db.jobs[j].(enabled := false, nextRunAt := None, updatedAt := now))
            && ClaimJob(db', q).claim.None?
  {
    ClaimedIff(Apply(db, Pause(j, now)), q);
  }

  /** A resumed job is on and armed; a poll from that instant on claims it if nothing else forbids it. */
  lemma ResumeArms(db: Db, j: JobId, now: Time, at: Time, q: Request)
    requires j in db.jobs && q.job == j && q.requireDue && at <= q.now
    ensures var db' := Apply(db, Resume(j, now, at));
            && db'.runs == db.runs && db'.jobs == db.jobs[j := db.jobs[j].(enabled := true, nextRunAt := Some(at), updatedAt := now)]
            && (ClaimJob(db', q).claim.Some? <==>
                  IsOpen(db, q) && !("once:" <= db.jobs[j].expression && q.now - at > 120 * SECOND) && IsFree(db, j, q.now, q.alive))
  {
    ClaimedIff(Apply(db, Resume(j, now, at)), q);
  }

  /** Pruning removes exactly the ended runs that ended, or else started, before the cutoff. */
  lemma PruneRemoves(db: Db, cutoff: Time, r: RunId)
    ensures var db' := Apply(db, Prune(cutoff));
            && db'.jobs == db.jobs
            && (r in db'.runs <==>
                  r in db.runs &&
                  (db.runs[r].status == Running || (if db.runs[r].completedAt.Some? then db.runs[r].completedAt.value else db.runs[r].startedAt) >= cutoff))
            && (r in db'.runs ==> db'.runs[r] == db.runs[r])
  {
  }

  /** Deleting a job takes exactly it and its runs. */
  lemma DeleteRemoves(db: Db, j: JobId, i: JobId, r: RunId)
    ensures var db' := Apply(db, Delete(j));
            && (i in db'.jobs <==> i in db.jobs && i != j) && (i in db'.jobs ==> db'.jobs[i] == db.jobs[i])
            && (r in db'.runs <==> r in db.runs && db.runs[r].job != j) && (r in db'.runs ==> db'.runs[r] == db.runs[r])
  {
  }
}
