/** The scheduler's methods over the tables, with `claim_job` taken as a whole. */
module CronScheduler {
  import opened Common
  import opened CronTypes
  import opened CronStatements

  /** One call of `claim_job`: its arguments, the instant it reads, the fresh ids it draws,
      the attempt number its subquery finds, and the liveness answers it gets. */
  datatype Request = Request(
    job: JobId,
    requireDue: bool,
    advanceSchedule: bool,
    now: Time,
    runId: RunId,
    token: Token,
    attempt: nat,
    pid: int,
    alive: nat -> bool,
    cutoverPending: bool)

  datatype Claimed = Claimed(db: Db, claim: Option<Claim>)

  /** The one-shot missed its window. */
  predicate Overdue(job: Job, now: Time) {
    IsOneShot(job.expression) && job.nextRunAt.Some? && now - job.nextRunAt.value > ONESHOT_GRACE_DURATION
  }

  function ClaimJob(db: Db, q: Request): Claimed {
    if q.cutoverPending then Claimed(db, None)
    else
      var db1 := ReclaimExpired(db, q.job, q.now, q.alive);
      if q.job !in db1.jobs || db1.jobs[q.job].authority == CutoverPending then Claimed(db1, None)
      else
        var job := db1.jobs[q.job];
        if ShouldDisableAfter(ExtractRepeatInfo(job.payload)) then Claimed(db1, None)
        else if q.requireDue && (!job.enabled || job.nextRunAt.None?) then Claimed(db1, None)
        else if q.requireDue && Overdue(job, q.now) then
          Claimed(RetireOverdueOneShot(db1, q.job, job.expression, job.nextRunAt.value, job.payload, q.now), None)
        else if CanInsert(db1, q.job, q.now, q.requireDue) then
          Claimed(InsertRun(db1, q.runId, q.job, q.token, q.now, q.requireDue, q.attempt, q.pid),
                  Some(Claim(q.runId, q.token, q.job, job, q.advanceSchedule)))
        else Claimed(db1, None)
  }

  /** The claim ends in an error: an overdue one-shot would be retired, but its payload cannot be
      read. */
  predicate ClaimFails(db: Db, q: Request) {
    && !q.cutoverPending && q.requireDue
    && q.job in db.jobs
    && var job := db.jobs[q.job];
    job.authority != CutoverPending && job.enabled && Overdue(job, q.now) && job.payload.Malformed?
  }

  /** A poll's outcome: the claims it made, how many jobs it came to, and whether it broke off. */
  datatype Polled = Polled(db: Db, claims: seq<Claim>, attempted: nat, failed: bool)

  function Made(claim: Option<Claim>): seq<Claim> {
    if claim.Some? then [claim.value] else []
  }

  /** Claims the due jobs in turn; the first error breaks the poll off. */
  function Poll(db: Db, requests: seq<Request>): Polled
    decreases |requests|
  {
    if requests == [] then Polled(db, [], 0, false)
    else
      var c := ClaimJob(db, requests[0]);
      if ClaimFails(db, requests[0]) then Polled(c.db, [], 1, true)
      else
        var rest := Poll(c.db, requests[1..]);
        rest.(claims := Made(c.claim) + rest.claims, attempted := 1 + rest.attempted)
  }

  /** The outcome of a poll that goes on after `i` jobs with the claims made so far. */
  function Resumed(claims: seq<Claim>, i: nat, db: Db, requests: seq<Request>): Polled {
    var p := Poll(db, requests);
    Polled(p.db, claims + p.claims, i + p.attempted, p.failed)
  }

  lemma ResumesOn(claims: seq<Claim>, i: nat, db: Db, requests: seq<Request>)
    requires i < |requests|
    ensures var c := ClaimJob(db, requests[i]);
            Resumed(claims, i, db, requests[i..]) ==
            if ClaimFails(db, requests[i]) then Polled(c.db, claims, i + 1, true)
            else Resumed(claims + Made(c.claim), i + 1, c.db, requests[i + 1..])
  {
    var c, rest := ClaimJob(db, requests[i]), requests[i..];
    assert rest[0] == requests[i] && rest[1..] == requests[i + 1..];
    if ClaimFails(db, requests[i]) {
      assert claims + [] == claims;
    } else {
      ConcatAssoc(claims, Made(c.claim), Poll(c.db, rest[1..]).claims);
    }
  }

  class Scheduler {
    var jobs: map<JobId, Job>
    var runs: map<RunId, Run>

    function Tables(): Db
      reads this
    {
      Db(jobs, runs)
    }

    method ReclaimCandidates(id: JobId, now: Time, alive: nat -> bool)
      modifies this`runs
      ensures Tables() == ReclaimExpired(old(Tables()), id, now, alive)
    {
      var candidates := set r | r in runs && runs[r].job == id && runs[r].status == Running && runs[r].leaseExpiresAt <= now;
      ghost var before := runs;
      var todo := candidates;
      while todo != {}
        invariant todo <= candidates
        invariant runs.Keys == before.Keys
        invariant forall r :: r in before ==>
                    runs[r] == if r in candidates - todo && Reclaimable(before[r], now, alive)
                               then Reclaimed(before[r], now) else before[r]
        decreases todo
      {
        var r :| r in todo;
        todo := todo - {r};
        var pid := ProbePid(runs[r].ownerPid);
        if ShouldReclaimWith(pid, true, now - runs[r].leaseExpiresAt, alive) {
          if runs[r].status == Running {
            runs := runs[r := Reclaimed(runs[r], now)];
          }
        }
      }
      assert runs == ReclaimExpired(old(Tables()), id, now, alive).runs;
    }

    method Claim(q: Request) returns (claim: Option<Claim>, failed: bool)
      modifies this
      ensures Claimed(Tables(), claim) == ClaimJob(old(Tables()), q)
      ensures failed == ClaimFails(old(Tables()), q)
    {
      claim, failed := None, false;
      if q.cutoverPending {
        return;
      }
      ReclaimCandidates(q.job, q.now, q.alive);
      if q.job !in jobs || jobs[q.job].authority == CutoverPending {
        return;
      }
      var job := jobs[q.job];
      if ShouldDisableAfter(ExtractRepeatInfo(job.payload)) {
        return;
      }
      if q.requireDue {
        if !job.enabled || job.nextRunAt.None? {
          return;
        }
        if Overdue(job, q.now) {
          failed := Retire(q.job, job, q.now);
          return;
        }
      }
      if CanInsert(Tables(), q.job, q.now, q.requireDue) {
        runs := runs[q.runId := NewRun(q.job, q.token, q.now, q.attempt, q.pid)];
        claim := Some(CronStatements.Claim(q.runId, q.token, q.job, jobs[q.job], q.advanceSchedule));
      }
    }

    /** Retires the observed row; `failed` if its payload cannot be read. */
    method Retire(id: JobId, observed: Job, now: Time) returns (failed: bool)
      requires observed.nextRunAt.Some?
      modifies this`jobs
      ensures failed == observed.payload.Malformed?
      ensures Tables() == RetireOverdueOneShot(
                old(Tables()), id, observed.expression, observed.nextRunAt.value, observed.payload, now)
    {
      if observed.payload.Malformed? {
        return true;
      }
      failed := false;
      if && id in jobs && jobs[id].enabled && jobs[id].expression == observed.expression
         && jobs[id].nextRunAt == observed.nextRunAt && jobs[id].payload == observed.payload
         && !HasRunning(Tables(), id)
      {
        jobs := jobs[id := jobs[id].(enabled := false, nextRunAt := None,
                                     payload := MissedPayload(observed.payload, now), updatedAt := now)];
      }
    }

    /** Claims the listed jobs in turn; an error ends the poll. */
    method RunDueJobs(requests: seq<Request>) returns (claims: seq<Claim>, failed: bool)
      modifies this
      ensures var p := Poll(old(Tables()), requests);
              Tables() == p.db && claims == p.claims && failed == p.failed
    {
      claims, failed := [], false;
      ghost var goal := Poll(Tables(), requests);
      var i := 0;
      while i < |requests|
        invariant i <= |requests| && !failed
        invariant Resumed(claims, i, Tables(), requests[i..]) == goal
      {
        ghost var before := Tables();
        var claim;
        claim, failed := Claim(requests[i]);
        ResumesOn(claims, i, before, requests);
        if failed {
          return;
        }
        claims := claims + Made(claim);
        i := i + 1;
      }
    }

    method Refresh(token: Token, now: Time)
      modifies this`runs
      ensures Tables() == RefreshLease(old(Tables()), token, now)
    {
      runs := map r | r in runs ::
        if runs[r].token == token && runs[r].status == Running
        then runs[r].(leaseExpiresAt := now + LEASE_DURATION) else runs[r];
    }

    method CountLeadingFailures(listing: seq<RunId>) returns (failures: nat)
      ensures failures == LeadingFailures(runs, listing)
    {
      failures := 0;
      while failures < |listing| && listing[failures] in runs && runs[listing[failures]].status == Failed
        invariant failures <= |listing|
        invariant LeadingFailures(runs, listing) == failures + LeadingFailures(runs, listing[failures..])
      {
        assert listing[failures..][1..] == listing[failures + 1..];
        failures := failures + 1;
      }
    }

    method CompleteRun(claim: Claim, outcome: Outcome, now: Time, scheduled: Option<Time>, listing: seq<RunId>)
      modifies this
      ensures Tables() == Complete(old(Tables()), claim, outcome, now, scheduled, listing)
    {
      if !Owns(Tables(), claim) {
        return;
      }
      var error := if outcome.Failure? then Some(outcome.error) else None;
      var finished := FinishRun(Tables(), claim, if outcome.Success? then Succeeded else Failed, error, now);
      if RollsBack(claim, outcome, scheduled) {
        return;
      }
      runs := finished.runs;
      if !RowUnchanged(Tables(), claim) {
        return;
      }
      var row := jobs[claim.jobId].(payload := CompletedPayload(claim, outcome, now), updatedAt := now);
      if !claim.advanceSchedule {
        jobs := jobs[claim.jobId := row];
        return;
      }
      if Recurs(claim) {
        var failures := CountLeadingFailures(listing);
        var next := NextAfter(claim, outcome, now, scheduled, failures);
        if next.Some? {
          if jobs[claim.jobId].enabled {
            jobs := jobs[claim.jobId := row.(nextRunAt := next)];
          }
          return;
        }
      }
      jobs := jobs[claim.jobId := row.(enabled := false, nextRunAt := None)];
    }
  }

  /** Retiring acts if and only if the row is still the one that was observed, its payload can be
      read and nothing runs. It touches no run and no other job, a second attempt does nothing,
      and no poll claims or changes the job afterwards. */
  lemma RetireEffect(db: Db, id: JobId, observed: Job, now: Time)
    requires observed.nextRunAt.Some?
    ensures var db' := RetireOverdueOneShot(db, id, observed.expression, observed.nextRunAt.value, observed.payload, now);
            && (db' != db <==>
                  && id in db.jobs && db.jobs[id].enabled && !HasRunning(db, id) && !observed.payload.Malformed?
                  && db.jobs[id].expression == observed.expression && db.jobs[id].payload == observed.payload
                  && db.jobs[id].nextRunAt == observed.nextRunAt)
            && db'.runs == db.runs && db'.jobs.Keys == db.jobs.Keys
            && (forall j :: j in db.jobs && j != id ==> db'.jobs[j] == db.jobs[j])
            && RetireOverdueOneShot(db', id, observed.expression, observed.nextRunAt.value, observed.payload, now) == db'
            && (db' != db ==> forall q: Request :: q.job == id && q.requireDue ==>
                  ClaimJob(db', q).claim.None? && ClaimJob(db', q).db.jobs == db'.jobs)
  {
    var db' := RetireOverdueOneShot(db, id, observed.expression, observed.nextRunAt.value, observed.payload, now);
    if db' != db {
      assert !db'.jobs[id].enabled;
    }
  }
}
