/** Any number of scheduler processes on the same tables, interleaved one SQL statement at
    a time. Every process only ever issues statements of the kinds below, so a sequence of
    arbitrary statements covers every schedule, crash and delay; a process that dies simply
    issues no more of them. */
module CronInterleaving {
  import opened Common
  import opened CronTypes
  import opened HermesMerge
  import opened CronStatements
  import opened CronEnvironment

  /** What the processes know of a run: inserted, or claimed with the job row read back. */
  datatype Hold =
    | Inserted(jobId: JobId, token: Token, advanceSchedule: bool)
    | Held(claim: Claim)
  {
    function Job(): JobId {
      if Inserted? then jobId else claim.jobId
    }
    function Tag(): Token {
      if Inserted? then token else claim.token
    }
  }

  /** `holds` keeps an entry for every run ever inserted. */
  datatype System = System(db: Db, holds: map<RunId, Hold>)

  datatype Statement =
    // claim_job
    | Reclaim(runId: RunId, now: Time)
    | Retire(job: JobId, expression: string, observedNext: Time, observedPayload: Payload, now: Time)
    | Insert(runId: RunId, job: JobId, token: Token, now: Time, requireDue: bool, advance: bool, attempt: nat, pid: int)
    | ReadJob(runId: RunId)
    // the owner of a run
    | Refresh(runId: RunId, now: Time)
    | Finish(runId: RunId, outcome: Outcome, now: Time, scheduled: Option<Time>, listing: seq<RunId>)
    // everything else
    | Other(o: Outside)

  /** Run ids and claim tokens are fresh UUIDs. */
  ghost predicate Legal(s: System, a: Statement) {
    match a
    case Insert(runId, job, token, _, _, _, attempt, _) =>
      && runId !in s.holds
      && (forall r :: r in s.holds ==> s.holds[r].Tag() != token)
      && IsNextAttempt(s.db, job, attempt)
    case Other(o) => IsLawful(o)
    case _ => true
  }

  function Step(s: System, a: Statement): System {
    match a
    case Reclaim(runId, now) => s.(db := ReclaimRun(s.db, runId, now))
    case Retire(job, expression, observedNext, observedPayload, now) =>
      s.(db := RetireOverdueOneShot(s.db, job, expression, observedNext, observedPayload, now))
    case Insert(runId, job, token, now, requireDue, advance, attempt, pid) =>
      if CanInsert(s.db, job, now, requireDue)
      then System(InsertRun(s.db, runId, job, token, now, requireDue, attempt, pid),
                  s.holds[runId := Inserted(job, token, advance)])
      else s
    case ReadJob(runId) =>
      if runId in s.holds && s.holds[runId].Inserted? && s.holds[runId].jobId in s.db.jobs
      then
        var h := s.holds[runId];
        s.(holds := s.holds[runId := Held(Claim(runId, h.token, h.jobId, s.db.jobs[h.jobId], h.advanceSchedule))])
      else s
    case Refresh(runId, now) =>
      if runId in s.holds then s.(db := RefreshLease(s.db, s.holds[runId].Tag(), now)) else s
    case Finish(runId, outcome, now, scheduled, listing) =>
      if runId in s.holds && s.holds[runId].Held?
      then s.(db := Complete(s.db, s.holds[runId].claim, outcome, now, scheduled, listing))
      else s
    case Other(o) => s.(db := Apply(s.db, o))
  }

  ghost predicate LegalRun(s: System, run: seq<Statement>)
    decreases |run|
  {
    run == [] || (Legal(s, run[0]) && LegalRun(Step(s, run[0]), run[1..]))
  }

  function Exec(s: System, run: seq<Statement>): System
    decreases |run|
  {
    if run == [] then s else Exec(Step(s, run[0]), run[1..])
  }

  // ---------------------------------------------------------------------
  // Mutual exclusion.
  // ---------------------------------------------------------------------

  ghost predicate Inv(s: System) {
    && AtMostOneRunning(s.db)
    && (forall r :: r in s.db.runs ==>
          && r in s.holds
          && s.db.runs[r].token == s.holds[r].Tag()
          && s.db.runs[r].job == s.holds[r].Job())
    && (forall r :: r in s.holds && s.holds[r].Held? ==> s.holds[r].claim.runId == r)
    && (forall r1, r2 :: r1 in s.holds && r2 in s.holds && s.holds[r1].Tag() == s.holds[r2].Tag() ==> r1 == r2)
  }

  /** Apart from insertion, statements only end or remove runs, and never change who owns them. */
  lemma RunWasThere(s: System, a: Statement, r: RunId)
    requires Inv(s) && !a.Insert? && r in Step(s, a).db.runs
    ensures var s' := Step(s, a);
            && r in s.db.runs
            && s'.db.runs[r].token == s.db.runs[r].token
            && s'.db.runs[r].job == s.db.runs[r].job
            && (s'.db.runs[r].status == Running ==> s.db.runs[r].status == Running)
  {
    if a.Finish? {
      FinishEffect(s, a);
    } else if a.Other? {
      OutsideLeavesRuns(s.db, a.o);
    }
  }

  lemma OnlyInsertStartsRuns(s: System, a: Statement)
    requires Inv(s) && !a.Insert?
    ensures var s' := Step(s, a);
            forall r :: r in s'.db.runs ==>
              && r in s.db.runs
              && s'.db.runs[r].token == s.db.runs[r].token
              && s'.db.runs[r].job == s.db.runs[r].job
              && (s'.db.runs[r].status == Running ==> s.db.runs[r].status == Running)
  {
    forall r | r in Step(s, a).db.runs
      ensures r in s.db.runs
      ensures Step(s, a).db.runs[r].token == s.db.runs[r].token && Step(s, a).db.runs[r].job == s.db.runs[r].job
      ensures Step(s, a).db.runs[r].status == Running ==> s.db.runs[r].status == Running
    {
      RunWasThere(s, a, r);
    }
  }

  lemma HoldsKeepOwners(s: System, a: Statement)
    requires Inv(s) && !a.Insert?
    ensures var s' := Step(s, a);
            && s'.holds.Keys == s.holds.Keys
            && (forall r :: r in s.holds ==> s'.holds[r].Tag() == s.holds[r].Tag() && s'.holds[r].Job() == s.holds[r].Job())
            && (forall r :: r in s'.holds && s'.holds[r].Held? ==> s'.holds[r].claim.runId == r)
  {
    if !a.ReadJob? {
      assert Step(s, a).holds == s.holds;
    }
  }

  lemma StepKeepsInv(s: System, a: Statement)
    requires Inv(s) && Legal(s, a)
    ensures Inv(Step(s, a))
  {
    if !a.Insert? {
      OnlyInsertStartsRuns(s, a);
      HoldsKeepOwners(s, a);
    }
  }

  /** Tables without runs, whatever their jobs, are a possible beginning. */
  lemma NoRunsIsInv(jobs: map<JobId, Job>)
    ensures Inv(System(Db(jobs, map[]), map[]))
  {
  }

  lemma {:induction false} MutualExclusion(s: System, run: seq<Statement>)
    requires Inv(s) && LegalRun(s, run)
    ensures Inv(Exec(s, run))
    ensures AtMostOneRunning(Exec(s, run).db)
    decreases |run|
  {
    if run != [] {
      StepKeepsInv(s, run[0]);
      MutualExclusion(Step(s, run[0]), run[1..]);
    }
  }

  // ---------------------------------------------------------------------
  // Fencing.
  // ---------------------------------------------------------------------

  predicate IsRunning(s: System, r: RunId) {
    r in s.db.runs && s.db.runs[r].status == Running
  }

  /** A completion acts exactly when its own run is still running and the transaction
      commits; it then ends that run, and touches no other run and no other job. */
  lemma FinishEffect(s: System, a: Statement)
    requires Inv(s) && a.Finish?
    ensures var s' := Step(s, a);
            && s'.holds == s.holds
            && (s'.db != s.db <==>
                  && a.runId in s.holds && s.holds[a.runId].Held?
                  && IsRunning(s, a.runId)
                  && !RollsBack(s.holds[a.runId].claim, a.outcome, a.scheduled))
            && s'.db.runs.Keys == s.db.runs.Keys
            && s'.db.jobs.Keys == s.db.jobs.Keys
            && (forall r :: r in s.db.runs && r != a.runId ==> s'.db.runs[r] == s.db.runs[r])
            && (s'.db != s.db ==>
                  && a.runId in s.db.runs
                  && s'.db.runs[a.runId].status == (if a.outcome.Success? then Succeeded else Failed)
                  && s'.db.runs[a.runId].token == s.db.runs[a.runId].token
                  && s'.db.runs[a.runId].job == s.db.runs[a.runId].job
                  && forall j :: j in s.db.jobs && j != s.db.runs[a.runId].job ==> s'.db.jobs[j] == s.db.jobs[j])
  {
    if a.runId in s.holds && s.holds[a.runId].Held? {
      CompleteEffect(s.db, s.holds[a.runId].claim, a.outcome, a.now, a.scheduled, a.listing);
    }
  }

  /** The run exists no more, or has ended. */
  predicate Over(s: System, r: RunId) {
    r in s.holds && !IsRunning(s, r)
  }

  /** No statement changes the row of an ended run, or revives one; only pruning and the
      deletion of its job remove it. */
  lemma EndedRunsAreFrozen(s: System, a: Statement, r: RunId)
    requires Inv(s) && Legal(s, a) && Over(s, r)
    ensures Over(Step(s, a), r)
    ensures r in Step(s, a).db.runs ==> r in s.db.runs && Step(s, a).db.runs[r] == s.db.runs[r]
  {
    if a.Finish? {
      FinishEffect(s, a);
    } else if a.Other? {
      OutsideLeavesRuns(s.db, a.o);
    }
  }

  /** Terminal statuses are final over every run of the system. */
  lemma {:induction false} TerminalIsFinal(s: System, run: seq<Statement>, r: RunId)
    requires Inv(s) && LegalRun(s, run) && Over(s, r)
    ensures Over(Exec(s, run), r)
    ensures r in Exec(s, run).db.runs ==> r in s.db.runs && Exec(s, run).db.runs[r] == s.db.runs[r]
    decreases |run|
  {
    if run != [] {
      StepKeepsInv(s, run[0]);
      EndedRunsAreFrozen(s, run[0], r);
      TerminalIsFinal(Step(s, run[0]), run[1..], r);
    }
  }

  lemma {:induction false} ExecSplit(s: System, run: seq<Statement>, n: nat)
    requires n <= |run| && LegalRun(s, run)
    ensures LegalRun(s, run[..n]) && LegalRun(Exec(s, run[..n]), run[n..])
    ensures Exec(s, run) == Exec(Exec(s, run[..n]), run[n..])
    decreases n
  {
    if n == 0 {
      assert run[..0] == [] && run[0..] == run;
    } else {
      ExecSplit(Step(s, run[0]), run[1..], n - 1);
      assert run[..n][1..] == run[1..][..n - 1] && run[..n][0] == run[0];
      assert run[n..] == run[1..][n - 1..];
    }
  }

  /** Statement `i` of a run changes the tables. */
  predicate Acts(s: System, run: seq<Statement>, i: nat)
    requires i < |run|
  {
    var before := Exec(s, run[..i]);
    Step(before, run[i]).db != before.db
  }

  /** The statement ends the run, as a completion or by reclaiming it. */
  predicate Ends(s: System, a: Statement, r: RunId) {
    (a.Finish? || a.Reclaim?) && a.runId == r && Step(s, a).db != s.db
  }

  lemma EndedIsOver(s: System, a: Statement, r: RunId)
    requires Inv(s) && Ends(s, a, r)
    ensures Over(Step(s, a), r)
  {
    if a.Finish? {
      FinishEffect(s, a);
    }
  }

  lemma LateFinishDoesNothing(s: System, a: Statement, r: RunId)
    requires Inv(s) && a.Finish? && a.runId == r && Over(s, r)
    ensures Step(s, a).db == s.db
  {
    FinishEffect(s, a);
  }

  /** Each run contributes at most one completion, and none after it was reclaimed: once any
      statement has ended it, every later completion of it leaves both tables as they are. */
  lemma OneCompletionPerRun(s: System, run: seq<Statement>, i: nat, j: nat, r: RunId)
    requires Inv(s) && LegalRun(s, run) && i < j < |run|
    requires Ends(Exec(s, run[..i]), run[i], r)
    requires run[j].Finish? && run[j].runId == r
    ensures !Acts(s, run, j)
  {
    var before, after := Exec(s, run[..i]), Step(Exec(s, run[..i]), run[i]);
    ExecSplit(s, run, i);
    MutualExclusion(s, run[..i]);
    assert run[i..][0] == run[i];
    StepKeepsInv(before, run[i]);
    EndedIsOver(before, run[i], r);
    var rest := run[i..][1..];
    ExecSplit(after, rest, j - i - 1);
    TerminalIsFinal(after, rest[..j - i - 1], r);
    MutualExclusion(after, rest[..j - i - 1]);
    ExecThrough(s, run, i, j);
    LateFinishDoesNothing(Exec(s, run[..j]), run[j], r);
  }

  lemma ExecThrough(s: System, run: seq<Statement>, i: nat, j: nat)
    requires i < j <= |run| && LegalRun(s, run)
    ensures Exec(s, run[..j]) == Exec(Step(Exec(s, run[..i]), run[i]), run[i..][1..][..j - i - 1])
  {
    ExecSplit(s, run, j);
    var head := run[..j];
    ExecSplit(s, head, i);
    assert head[..i] == run[..i];
    assert head[i..][0] == run[i];
    assert head[i..][1..] == run[i..][1..][..j - i - 1];
  }

  // ---------------------------------------------------------------------
  // Mirrored jobs.
  // ---------------------------------------------------------------------

  /** Everything but operator edits, and nothing that removes job `j`. */
  predicate KeepsDefinition(a: Statement, j: JobId) {
    a.Other? && !a.o.Mirror? && !a.o.Prune? ==> a.o.job != j
  }

  /** The job is mirrored and its counter can still be incremented in 64 bits. */
  predicate Mirrored(s: System, j: JobId) {
    && j in s.db.jobs
    && IsHermesRow(s.db.jobs[j])
    && s.db.jobs[j].payload.repeat.completed.n + 1 < U64_RANGE
  }

  function StoredCounter(s: System, j: JobId): nat
    requires j in s.db.jobs
  {
    Counter(s.db.jobs[j].payload)
  }

  lemma CompletionCounts(claim: Claim, outcome: Outcome, now: Time)
    requires IsHermesPayload(claim.job.payload)
    requires claim.job.payload.repeat.completed.n + 1 < U64_RANGE
    ensures var p := CompletedPayload(claim, outcome, now);
            IsHermesPayload(p) && Counter(p) >= Counter(claim.job.payload)
            && p.repeat.completed.n == claim.job.payload.repeat.completed.n + 1
  {
  }

  lemma StepKeepsMirror(s: System, a: Statement, j: JobId)
    requires Mirrored(s, j) && Legal(s, a) && KeepsDefinition(a, j)
    ensures j in Step(s, a).db.jobs && IsHermesRow(Step(s, a).db.jobs[j])
    ensures StoredCounter(Step(s, a), j) >= StoredCounter(s, j)
  {
    if a.Finish? {
      FinishKeepsMirror(s, a, j);
    } else if a.Other? && a.o.Mirror? && a.o.job == j {
      PayloadMergeSettles(s.db.jobs[j].payload, a.o.incoming.payload);
    }
  }

  lemma FinishKeepsMirror(s: System, a: Statement, j: JobId)
    requires Mirrored(s, j) && a.Finish?
    ensures j in Step(s, a).db.jobs && IsHermesRow(Step(s, a).db.jobs[j])
    ensures StoredCounter(Step(s, a), j) >= StoredCounter(s, j)
  {
    if a.runId in s.holds && s.holds[a.runId].Held? {
      var claim := s.holds[a.runId].claim;
      if claim.jobId == j && RowUnchanged(s.db, claim) {
        CompletionCounts(claim, a.outcome, a.now);
      }
    }
  }

  /** The counter never wraps around in any state of the run. */
  ghost predicate StaysMirrored(s: System, run: seq<Statement>, j: JobId)
    decreases |run|
  {
    Mirrored(s, j) && (run != [] ==> KeepsDefinition(run[0], j) && StaysMirrored(Step(s, run[0]), run[1..], j))
  }

  /** Whatever the interleaving of synchronisations, claims, completions and retirements, the
      stored repeat counter of a mirrored job never goes down. */
  lemma {:induction false} CounterNeverDecreases(s: System, run: seq<Statement>, j: JobId)
    requires LegalRun(s, run) && StaysMirrored(s, run, j)
    ensures j in Exec(s, run).db.jobs
    ensures StoredCounter(Exec(s, run), j) >= StoredCounter(s, j)
    decreases |run|
  {
    if run != [] {
      StepKeepsMirror(s, run[0], j);
      CounterNeverDecreases(Step(s, run[0]), run[1..], j);
    }
  }

  /** Why a job is over: it was a one-shot, or its repeats are used up. */
  datatype Ending = OneShotDone(expression: string) | RepeatsDone(times: nat)

  /** Off and without a next run, for the given reason. */
  predicate Settled(s: System, j: JobId, why: Ending) {
    && j in s.db.jobs
    && var row := s.db.jobs[j];
    && !row.enabled && row.nextRunAt == None
    && match why
       case OneShotDone(expression) => IsOneShot(expression) && row.expression == expression
       case RepeatsDone(times) => Counter(row.payload) >= times
  }

  /** Synchronisations of `j` bring the same one-shot, or a limit that is not raised. */
  predicate SourceAgrees(a: Statement, j: JobId, why: Ending) {
    a.Other? && a.o.Mirror? && a.o.job == j ==>
      match why
      case OneShotDone(expression) => a.o.incoming.expression == expression
      case RepeatsDone(times) => 0 < RepeatTimes(a.o.incoming.payload).AsInteger() <= times
  }

  lemma StepKeepsSettled(s: System, a: Statement, j: JobId, why: Ending)
    requires Mirrored(s, j) && Legal(s, a) && KeepsDefinition(a, j)
    requires Settled(s, j, why) && SourceAgrees(a, j, why)
    ensures Settled(Step(s, a), j, why)
  {
    StepKeepsMirror(s, a, j);
  }

  /** A finished one-shot whose source keeps the expression, or a job at its repeat limit with no
      next run whose source does not raise the limit, whatever else it changes, is never enabled
      or armed again by any interleaving without operator edits. */
  lemma {:induction false} NeverRearmed(s: System, run: seq<Statement>, j: JobId, why: Ending)
    requires LegalRun(s, run) && StaysMirrored(s, run, j)
    requires Settled(s, j, why)
    requires forall i :: 0 <= i < |run| ==> SourceAgrees(run[i], j, why)
    ensures Settled(Exec(s, run), j, why)
    decreases |run|
  {
    if run != [] {
      StepKeepsSettled(s, run[0], j, why);
      NeverRearmed(Step(s, run[0]), run[1..], j, why);
    }
  }
}
