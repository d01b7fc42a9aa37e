/** The SQL statements and transactions of the scheduler, each as one function of the tables. */
module CronStatements {
  import opened Common
  import opened CronTypes

  /** What a process holds after claiming: the run it owns and the job row it read. */
  datatype Claim = Claim(runId: RunId, token: Token, jobId: JobId, job: Job, advanceSchedule: bool)

  predicate HasRunning(db: Db, id: JobId) {
    exists r :: r in db.runs && db.runs[r].job == id && db.runs[r].status == Running
  }

  ghost predicate AtMostOneRunning(db: Db) {
    forall r1, r2 | r1 in db.runs && r2 in db.runs ::
      (db.runs[r1].status == Running && db.runs[r2].status == Running && db.runs[r1].job == db.runs[r2].job)
      ==> r1 == r2
  }

  // ---------------------------------------------------------------------
  // claim_job, statement by statement.
  // ---------------------------------------------------------------------

  function Reclaimed(run: Run, now: Time): Run {
    run.(status := Failed, completedAt := Some(now),
         error := if run.error.Some? then run.error else Some("lease expired before completion"))
  }

  function ReclaimRun(db: Db, runId: RunId, now: Time): Db {
    if runId in db.runs && db.runs[runId].status == Running
    then db.(runs := db.runs[runId := Reclaimed(db.runs[runId], now)])
    else db
  }

  /** All reclaims of one claim attempt together. */
  function ReclaimExpired(db: Db, id: JobId, now: Time, alive: nat -> bool): Db {
    db.(runs := map r | r in db.runs ::
          if db.runs[r].job == id && Reclaimable(db.runs[r], now, alive)
          then Reclaimed(db.runs[r], now) else db.runs[r])
  }

  predicate Due(job: Job, now: Time) {
    job.enabled && job.nextRunAt.Some? && job.nextRunAt.value <= now
  }

  predicate CanInsert(db: Db, id: JobId, now: Time, requireDue: bool) {
    && id in db.jobs
    && (requireDue ==> Due(db.jobs[id], now))
    && db.jobs[id].authority != CutoverPending
    && !HasRunning(db, id)
  }

  /** `MAX(attempt) + 1`, or 1 for the first run of a job. */
  ghost predicate IsNextAttempt(db: Db, id: JobId, attempt: nat) {
    && attempt >= 1
    && (forall r :: r in db.runs && db.runs[r].job == id ==> db.runs[r].attempt < attempt)
    && (attempt == 1 || exists r :: r in db.runs && db.runs[r].job == id && db.runs[r].attempt == attempt - 1)
  }

  function NewRun(id: JobId, token: Token, now: Time, attempt: nat, pid: int): Run {
    Run(id, token, now + LEASE_DURATION, now, None, Running, attempt, None, Some(pid))
  }

  function InsertRun(db: Db, runId: RunId, id: JobId, token: Token, now: Time, requireDue: bool, attempt: nat, pid: int): Db {
    if CanInsert(db, id, now, requireDue)
    then db.(runs := db.runs[runId := NewRun(id, token, now, attempt, pid)])
    else db
  }

  function MissedPayload(payload: Payload, now: Time): Payload {
    if payload.Object?
    then payload.(lastStatus := Text("missed"), lastRunAt := Instant(now),
                  lastError := Text("missed: overdue unclaimed one-shot past grace"),
                  lastDeliveryError := Null)
    else payload
  }

  function RetireOverdueOneShot(
    db: Db, id: JobId, expression: string, observedNext: Time, observedPayload: Payload, now: Time): Db
  {
    if && !observedPayload.Malformed?
       && id in db.jobs
       && db.jobs[id].enabled
       && db.jobs[id].expression == expression
       && db.jobs[id].nextRunAt == Some(observedNext)
       && db.jobs[id].payload == observedPayload
       && !HasRunning(db, id)
    then
      db.(jobs := db.jobs[id := db.jobs[id].(enabled := false, nextRunAt := None,
                                            payload := MissedPayload(observedPayload, now), updatedAt := now)])
    else db
  }

  // ---------------------------------------------------------------------
  // Lease and completion.
  // ---------------------------------------------------------------------

  function RefreshLease(db: Db, token: Token, now: Time): Db {
    db.(runs := map r | r in db.runs ::
          if db.runs[r].token == token && db.runs[r].status == Running
          then db.runs[r].(leaseExpiresAt := now + LEASE_DURATION) else db.runs[r])
  }

  predicate Owns(db: Db, claim: Claim) {
    && claim.runId in db.runs
    && db.runs[claim.runId].token == claim.token
    && db.runs[claim.runId].status == Running
  }

  function FinishRun(db: Db, claim: Claim, status: Status, error: Option<string>, now: Time): Db
    requires Owns(db, claim)
  {
    db.(runs := db.runs[claim.runId := db.runs[claim.runId].(
          status := status, completedAt := Some(now), leaseExpiresAt := now, error := error)])
  }

  /** How the completing process saw the job end. */
  datatype Outcome =
    | Success
    | Failure(error: string, isDeliveryError: bool)

  function ParsedOrEmpty(payload: Payload): Payload {
    if payload.Malformed? then EMPTY_OBJECT else payload
  }

  function WithResult(payload: Payload, outcome: Outcome, now: Time): Payload {
    if !payload.Object? then payload
    else match outcome
      case Success =>
        payload.(lastStatus := Text("succeeded"), lastRunAt := Instant(now), lastError := Null, lastDeliveryError := Null)
      case Failure(error, isDeliveryError) =>
        payload.(lastStatus := Text("failed"), lastRunAt := Instant(now), lastError := Text(error),
                 lastDeliveryError := if isDeliveryError then Text(error) else Null)
  }

  function CompletedPayload(claim: Claim, outcome: Outcome, now: Time): Payload {
    WithResult(IncrementRepeatCompleted(ParsedOrEmpty(claim.job.payload)).payload, outcome, now)
  }

  predicate LimitReached(claim: Claim) {
    ShouldDisableAfter(IncrementRepeatCompleted(ParsedOrEmpty(claim.job.payload)).info)
  }

  /** The schedule moves on after this completion, rather than ending. */
  predicate Recurs(claim: Claim) {
    claim.advanceSchedule && !IsOneShot(claim.job.expression) && !LimitReached(claim)
  }

  /** The compare-and-set on the job row: it must be the row the claim was made on. */
  predicate RowUnchanged(db: Db, claim: Claim) {
    && claim.jobId in db.jobs
    && db.jobs[claim.jobId].expression == claim.job.expression
    && db.jobs[claim.jobId].payload == claim.job.payload
  }

  /** Statuses of the job's newest runs, as `ORDER BY started_at DESC LIMIT 50` answers. */
  ghost predicate IsNewestFirst(db: Db, id: JobId, listing: seq<RunId>) {
    && (forall i :: 0 <= i < |listing| ==> listing[i] in db.runs && db.runs[listing[i]].job == id)
    && (forall i, j :: 0 <= i < j < |listing| ==> listing[i] != listing[j])
    && (forall i, j :: 0 <= i < j < |listing| ==> db.runs[listing[i]].startedAt >= db.runs[listing[j]].startedAt)
    && |listing| <= RECENT_LIMIT
    && (forall r :: r in db.runs && db.runs[r].job == id && r !in listing ==>
          && |listing| == RECENT_LIMIT
          && forall i :: 0 <= i < |listing| ==> db.runs[listing[i]].startedAt >= db.runs[r].startedAt)
  }

  function LeadingFailures(runs: map<RunId, Run>, listing: seq<RunId>): nat {
    if listing != [] && listing[0] in runs && runs[listing[0]].status == Failed
    then 1 + LeadingFailures(runs, listing[1..])
    else 0
  }

  /** The job row's next instant after a recurring run: `None` means the job is switched off. */
  function NextAfter(claim: Claim, outcome: Outcome, now: Time, scheduled: Option<Time>, failures: nat): Option<Time> {
    if outcome.Success? then scheduled else NextRunAfterFailure(claim.job.expression, now, scheduled, failures)
  }

  function UpdateJob(db: Db, claim: Claim, outcome: Outcome, now: Time, scheduled: Option<Time>, failures: nat): Db {
    if !RowUnchanged(db, claim) then db
    else
      var row := db.jobs[claim.jobId].(payload := CompletedPayload(claim, outcome, now), updatedAt := now);
      if !claim.advanceSchedule then
        db.(jobs := db.jobs[claim.jobId := row])
      else if Recurs(claim) && NextAfter(claim, outcome, now, scheduled, failures).Some? then
        if db.jobs[claim.jobId].enabled
        then db.(jobs := db.jobs[claim.jobId := row.(nextRunAt := NextAfter(claim, outcome, now, scheduled, failures))])
        else db
      else
        db.(jobs := db.jobs[claim.jobId := row.(enabled := false, nextRunAt := None)])
  }

  /** A successful recurring run whose next instant cannot be computed aborts its transaction. */
  predicate RollsBack(claim: Claim, outcome: Outcome, scheduled: Option<Time>) {
    outcome.Success? && Recurs(claim) && scheduled.None?
  }

  /** The completion transaction as a whole. */
  function Complete(db: Db, claim: Claim, outcome: Outcome, now: Time, scheduled: Option<Time>, listing: seq<RunId>): Db {
    if !Owns(db, claim) || RollsBack(claim, outcome, scheduled) then db
    else
      var error := if outcome.Failure? then Some(outcome.error) else None;
      var finished := FinishRun(db, claim, if outcome.Success? then Succeeded else Failed, error, now);
      UpdateJob(finished, claim, outcome, now, scheduled, LeadingFailures(finished.runs, listing))
  }

  /** A job scheduled for the first instant of 2030 only, claimed then and completed a second later,
      when its schedule has no further instant: its success changes nothing, and its run goes on
      as running. */
  lemma RolledBackSuccess()
    ensures var newYear := 1_893_456_000 * SECOND;
            var job := Job("0 0 0 1 1 * 2030", EMPTY_OBJECT, true, Some(newYear), 0, 0, OmonOwned);
            var run := Run("j", "t", newYear + LEASE_DURATION, newYear, None, Running, 1, None, None);
            var db, claim := Db(map["j" := job], map["r" := run]), Claim("r", "t", "j", job, true);
            && Owns(db, claim) && RollsBack(claim, Success, None)
            && Complete(db, claim, Success, newYear + SECOND, None, []) == db
  {
    var expression := "0 0 0 1 1 * 2030";
    assert expression[0] != "once:"[0];
  }

  /** A completion acts exactly when the claimed run is still running and the transaction
      commits; it then ends that run, and touches no other run and no other job. */
  lemma CompleteEffect(db: Db, claim: Claim, outcome: Outcome, now: Time, scheduled: Option<Time>, listing: seq<RunId>)
    ensures var db' := Complete(db, claim, outcome, now, scheduled, listing);
            && (db' != db <==> Owns(db, claim) && !RollsBack(claim, outcome, scheduled))
            && db'.runs.Keys == db.runs.Keys
            && db'.jobs.Keys == db.jobs.Keys
            && (forall r :: r in db.runs && r != claim.runId ==> db'.runs[r] == db.runs[r])
            && (forall j :: j in db.jobs && j != claim.jobId ==> db'.jobs[j] == db.jobs[j])
            && (db' != db ==>
                  db'.runs[claim.runId] == db.runs[claim.runId].(
                    status := if outcome.Success? then Succeeded else Failed,
                    completedAt := Some(now), leaseExpiresAt := now,
                    error := if outcome.Failure? then Some(outcome.error) else None))
  {
    var db' := Complete(db, claim, outcome, now, scheduled, listing);
    if Owns(db, claim) && !RollsBack(claim, outcome, scheduled) {
      assert db'.runs[claim.runId].status != Running;
    }
  }
}
