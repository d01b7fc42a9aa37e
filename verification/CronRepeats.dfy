/** Repeat limits over whole runs, and the backoff after failures. */
module CronRepeats {
  import opened Common
  import opened CronTypes
  import opened CronStatements
  import opened CronEnvironment
  import opened CronScheduler
  import opened CronWorld

  // ---------------------------------------------------------------------
  // Counting repeats.
  // ---------------------------------------------------------------------

  function Finalised(w: World, j: JobId): nat {
    if j in w.finalised then w.finalised[j] else 0
  }

  predicate Counting(w: World, j: JobId) {
    j in w.db.jobs && CountsRepeats(w.db.jobs[j].payload)
  }

  function Info(w: World, j: JobId): RepeatInfo
    requires j in w.db.jobs
  {
    ExtractRepeatInfo(w.db.jobs[j].payload)
  }

  /** Claiming, and retiring a missed one-shot, leave the counter alone. */
  lemma ClaimKeepsCount(w: World, q: Request, j: JobId)
    requires Inv(w) && Legal(w, ClaimEvent(q)) && Counting(w, j)
    ensures var w' := Step(w, ClaimEvent(q));
            Counting(w', j) && Info(w', j) == Info(w, j) && Finalised(w', j) == Finalised(w, j)
  {
    ClaimEffect(w.db, q);
  }

  lemma RefreshKeepsCount(w: World, e: Event, j: JobId)
    requires e.RefreshEvent? && Counting(w, j)
    ensures var w' := Step(w, e);
            Counting(w', j) && Info(w', j) == Info(w, j) && Finalised(w', j) == Finalised(w, j)
  {
  }

  lemma CompletedPayloadCounts(claim: Claim, outcome: Outcome, now: Time)
    requires CountsRepeats(claim.job.payload)
    ensures var p := CompletedPayload(claim, outcome, now);
            var before := ExtractRepeatInfo(claim.job.payload);
            CountsRepeats(p) && ExtractRepeatInfo(p) == RepeatInfo(before.times, Next(before.completed))
  {
    IncrementIsObservedIff(claim.job.payload);
  }

  /** The job row accepts a completion: it is the row that was claimed, and a schedule that moves
      on is still switched on. */
  predicate Accepts(db: Db, claim: Claim, outcome: Outcome, at: Time, scheduled: Option<Time>, failures: nat) {
    && RowUnchanged(db, claim)
    && (Recurs(claim) && NextAfter(claim, outcome, at, scheduled, failures).Some? ==> db.jobs[claim.jobId].enabled)
  }

  /** A completion that ends its run writes its result and the counter to the job row if and only if
      the row accepts it, and otherwise leaves all jobs as they are. */
  lemma CompletionLandsIff(db: Db, claim: Claim, outcome: Outcome, at: Time, scheduled: Option<Time>, listing: seq<RunId>)
    requires Owns(db, claim) && !RollsBack(claim, outcome, scheduled)
    ensures var finished := FinishRun(db, claim, if outcome.Success? then Succeeded else Failed,
                                      if outcome.Failure? then Some(outcome.error) else None, at);
            var jobs' := Complete(db, claim, outcome, at, scheduled, listing).jobs;
            if Accepts(db, claim, outcome, at, scheduled, LeadingFailures(finished.runs, listing))
            then claim.jobId in jobs' && jobs'[claim.jobId].payload == CompletedPayload(claim, outcome, at)
                 && jobs'[claim.jobId].updatedAt == at
            else jobs' == db.jobs
  {
  }

  lemma CompletionLands(w: World, e: Event)
    requires Inv(w) && Legal(w, e) && e.FinishEvent? && Step(w, e).db != w.db
    requires Undisturbed(w, w.claims[e.runId].jobId)
    ensures var claim := w.claims[e.runId];
            && claim.jobId in Step(w, e).db.jobs
            && RowUnchanged(w.db, claim)
            && !ShouldDisableAfter(ExtractRepeatInfo(claim.job.payload))
            && Step(w, e).db.jobs[claim.jobId].payload == CompletedPayload(claim, e.outcome, e.at)
            && Finalised(Step(w, e), claim.jobId) == Finalised(w, claim.jobId) + 1
  {
    var claim := w.claims[e.runId];
    CompleteEffect(w.db, claim, e.outcome, e.at, e.scheduled, e.listing);
    assert Current(w, e.runId);
    CompletionLandsIff(w.db, claim, e.outcome, e.at, e.scheduled, e.listing);
  }

  lemma OutsideKeepsCount(w: World, e: Event, j: JobId)
    requires e.OutsideEvent? && Counting(w, j) && Spares(w, e, j)
    ensures var w' := Step(w, e);
            Counting(w', j) && Info(w', j) == Info(w, j) && Finalised(w', j) == Finalised(w, j)
  {
  }

  /** `n` completions later: the counter has advanced by `n`, and stays within the limit. */
  predicate Advanced(before: RepeatInfo, after: RepeatInfo, n: nat) {
    && after.times == before.times
    && after.completed == (before.completed + n) % U64_RANGE
    && (before.times.Some? && before.times.value > 0 ==>
          after.completed == before.completed + n && after.completed <= Max(before.completed, before.times.value))
  }

  lemma AdvanceOnce(before: RepeatInfo, mid: RepeatInfo, n: nat)
    requires Advanced(before, mid, n) && !ShouldDisableAfter(mid)
    ensures Advanced(before, RepeatInfo(mid.times, Next(mid.completed)), n + 1)
  {
    NextAfterMod(before.completed + n);
  }

  lemma NextAfterMod(n: nat)
    ensures (n % U64_RANGE + 1) % U64_RANGE == (n + 1) % U64_RANGE
  {
  }

  /** The counter of `j` in `w` is that of `w0`, advanced by the completions in between. */
  ghost predicate Tracks(w0: World, w: World, j: JobId) {
    && Counting(w0, j) && Counting(w, j)
    && Finalised(w, j) >= Finalised(w0, j)
    && Advanced(Info(w0, j), Info(w, j), Finalised(w, j) - Finalised(w0, j))
  }

  /** Between `w` and `w'` the counter stood still, or advanced with one completion. */
  predicate CountsOn(w: World, w': World, j: JobId)
    requires Counting(w, j)
  {
    && Counting(w', j)
    && (|| (Finalised(w', j) == Finalised(w, j) && Info(w', j) == Info(w, j))
        || (&& Finalised(w', j) == Finalised(w, j) + 1
            && !ShouldDisableAfter(Info(w, j))
            && Info(w', j) == RepeatInfo(Info(w, j).times, Next(Info(w, j).completed))))
  }

  lemma CountingOnAdvances(w0: World, w: World, w': World, j: JobId)
    requires Tracks(w0, w, j) && CountsOn(w, w', j)
    ensures Tracks(w0, w', j)
  {
    if Finalised(w', j) != Finalised(w, j) {
      AdvanceOnce(Info(w0, j), Info(w, j), Finalised(w, j) - Finalised(w0, j));
    }
  }

  lemma FinishCounts(w: World, e: Event, j: JobId)
    requires Inv(w) && Legal(w, e) && e.FinishEvent? && Counting(w, j) && Undisturbed(w, j)
    ensures CountsOn(w, Step(w, e), j)
  {
    var claim := w.claims[e.runId];
    CompleteEffect(w.db, claim, e.outcome, e.at, e.scheduled, e.listing);
    if Step(w, e).db != w.db && claim.jobId == j {
      CompletionLands(w, e);
      CompletedPayloadCounts(claim, e.outcome, e.at);
    }
  }

  lemma StepCountsOn(w: World, e: Event, j: JobId)
    requires Inv(w) && Legal(w, e) && Undisturbed(w, j) && Spares(w, e, j) && Counting(w, j)
    ensures CountsOn(w, Step(w, e), j)
  {
    match e
    case ClaimEvent(q) => ClaimKeepsCount(w, q, j);
    case RefreshEvent(_, _) => RefreshKeepsCount(w, e, j);
    case FinishEvent(_, _, _, _, _) => FinishCounts(w, e, j);
    case OutsideEvent(_) => OutsideKeepsCount(w, e, j);
  }

  /** Nobody else changes expression, payload or switch of `j` along the run. */
  ghost predicate AllSpare(w: World, run: seq<Event>, j: JobId)
    decreases |run|
  {
    run == [] || (Spares(w, run[0], j) && AllSpare(Step(w, run[0]), run[1..], j))
  }

  lemma {:induction false} ExecAdvances(w0: World, w: World, run: seq<Event>, j: JobId)
    requires Inv(w) && LegalRun(w, run) && Undisturbed(w, j) && AllSpare(w, run, j) && Tracks(w0, w, j)
    ensures Tracks(w0, Exec(w, run), j)
    decreases |run|
  {
    if run != [] {
      var next := Step(w, run[0]);
      StepCountsOn(w, run[0], j);
      CountingOnAdvances(w0, w, next, j);
      StepKeepsInv(w, run[0]);
      StepKeepsUndisturbed(w, run[0], j);
      ExecAdvances(w0, next, run[1..], j);
    }
  }

  /** The completed counter is its initial value plus the number of runs that their owners
      finalised; reclaimed runs add nothing. With a positive limit it never exceeds the limit
      unless it started above it, and once there no claim of the job succeeds. */
  lemma RepeatCountAndLimit(w: World, run: seq<Event>, j: JobId)
    requires Inv(w) && LegalRun(w, run) && Counting(w, j)
    requires Undisturbed(w, j) && AllSpare(w, run, j)
    ensures var w' := Exec(w, run);
            Tracks(w, w', j) && (ShouldDisableAfter(Info(w', j)) ==> RefusesClaims(w'.db, j))
  {
    assert Tracks(w, w, j);
    TracksItself(w, j);
    ExecAdvances(w, w, run, j);
    var w' := Exec(w, run);
    if ShouldDisableAfter(Info(w', j)) {
      NoClaimsAtLimit(w'.db, j);
    }
  }

  /** No request claims the job. */
  ghost predicate RefusesClaims(db: Db, j: JobId) {
    forall q: Request :: q.job == j ==> ClaimJob(db, q).claim.None?
  }

  lemma TracksItself(w: World, j: JobId)
    requires Counting(w, j)
    ensures Tracks(w, w, j)
  {
  }

  lemma NoClaimsAtLimit(db: Db, j: JobId)
    requires j in db.jobs && ShouldDisableAfter(ExtractRepeatInfo(db.jobs[j].payload))
    ensures RefusesClaims(db, j)
  {
    forall q: Request | q.job == j ensures ClaimJob(db, q).claim.None? {
      NoClaimAtLimit(db, q);
    }
  }

  lemma NoClaimAtLimit(db: Db, q: Request)
    requires q.job in db.jobs && ShouldDisableAfter(ExtractRepeatInfo(db.jobs[q.job].payload))
    ensures ClaimJob(db, q).claim.None?
  {
  }

  // ---------------------------------------------------------------------
  // Backoff.
  // ---------------------------------------------------------------------

  /** The runs of `j` at the end of its history that all failed, reclaimed ones included. */
  ghost function TrailingFailed(db: Db, j: JobId): set<RunId> {
    set r | r in db.runs && db.runs[r].job == j && AllFailedFrom(db, j, db.runs[r].attempt)
  }

  ghost predicate AllFailedFrom(db: Db, j: JobId, attempt: nat) {
    forall r :: r in db.runs && db.runs[r].job == j && db.runs[r].attempt >= attempt ==> db.runs[r].status == Failed
  }

  predicate SameJob(db: Db, r1: RunId, r2: RunId) {
    r1 in db.runs && r2 in db.runs && db.runs[r1].job == db.runs[r2].job
  }

  /** Attempt numbers record the insertion order of a job's runs, and a running run is the
      last one inserted. */
  ghost predicate AttemptsRecordOrder(db: Db) {
    forall r1, r2 :: SameJob(db, r1, r2) && r1 != r2 ==>
      && db.runs[r1].attempt != db.runs[r2].attempt
      && (db.runs[r1].status == Running ==> db.runs[r2].attempt < db.runs[r1].attempt)
  }

  /** Runs of `db'` were there in `db`, with the same number and not revived. */
  ghost predicate KeepsNumbers(db: Db, db': Db) {
    forall r :: r in db'.runs ==> KeepsNumber(db, db', r)
  }

  predicate KeepsNumber(db: Db, db': Db, r: RunId)
    requires r in db'.runs
  {
    && r in db.runs && db'.runs[r].job == db.runs[r].job && db'.runs[r].attempt == db.runs[r].attempt
    && (db'.runs[r].status == Running ==> db.runs[r].status == Running)
  }

  lemma SameAttempts(db: Db, db': Db)
    requires AttemptsRecordOrder(db) && KeepsNumbers(db, db')
    ensures AttemptsRecordOrder(db')
  {
    forall r1, r2 | SameJob(db', r1, r2) && r1 != r2
      ensures db'.runs[r1].attempt != db'.runs[r2].attempt
      ensures db'.runs[r1].status == Running ==> db'.runs[r2].attempt < db'.runs[r1].attempt
    {
      assert KeepsNumber(db, db', r1) && KeepsNumber(db, db', r2) && SameJob(db, r1, r2);
    }
  }

  lemma ClaimKeepsAttempts(db: Db, q: Request)
    requires q.runId !in db.runs && IsNextAttempt(db, q.job, q.attempt) && AttemptsRecordOrder(db)
    ensures AttemptsRecordOrder(ClaimJob(db, q).db)
  {
    var db1 := if q.cutoverPending then db else ReclaimExpired(db, q.job, q.now, q.alive);
    assert KeepsNumbers(db, db1);
    SameAttempts(db, db1);
    var db' := ClaimJob(db, q).db;
    ClaimEffect(db, q);
    if ClaimJob(db, q).claim.Some? {
      InsertKeepsAttempts(db1, db', q);
    } else {
      assert KeepsNumbers(db1, db');
      SameAttempts(db1, db');
    }
  }

  lemma InsertKeepsAttempts(db: Db, db': Db, q: Request)
    requires AttemptsRecordOrder(db) && q.runId !in db.runs && !HasRunning(db, q.job)
    requires forall r :: r in db.runs && db.runs[r].job == q.job ==> db.runs[r].attempt < q.attempt
    requires db'.runs == db.runs[q.runId := NewRun(q.job, q.token, q.now, q.attempt, q.pid)]
    ensures AttemptsRecordOrder(db')
  {
    forall r1, r2 | SameJob(db', r1, r2) && r1 != r2
      ensures db'.runs[r1].attempt != db'.runs[r2].attempt
      ensures db'.runs[r1].status == Running ==> db'.runs[r2].attempt < db'.runs[r1].attempt
    {
      if r1 != q.runId && r2 != q.runId {
        assert SameJob(db, r1, r2);
      }
    }
  }

  lemma OtherStepKeepsNumbers(w: World, e: Event)
    requires Inv(w) && Legal(w, e) && !e.ClaimEvent?
    ensures KeepsNumbers(w.db, Step(w, e).db)
  {
    match e
    case RefreshEvent(_, _) =>
    case FinishEvent(runId, outcome, at, scheduled, listing) =>
      CompleteEffect(w.db, w.claims[runId], outcome, at, scheduled, listing);
    case OutsideEvent(o) => OutsideLeavesRuns(w.db, o);
  }

  lemma StepKeepsAttempts(w: World, e: Event)
    requires Inv(w) && Legal(w, e) && AttemptsRecordOrder(w.db)
    ensures AttemptsRecordOrder(Step(w, e).db)
  {
    if e.ClaimEvent? {
      ClaimKeepsAttempts(w.db, e.q);
    } else {
      OtherStepKeepsNumbers(w, e);
      SameAttempts(w.db, Step(w, e).db);
    }
  }

  lemma {:induction false} ExecKeepsAttempts(w: World, run: seq<Event>)
    requires Inv(w) && LegalRun(w, run) && AttemptsRecordOrder(w.db)
    ensures AttemptsRecordOrder(Exec(w, run).db)
    decreases |run|
  {
    if run != [] {
      StepKeepsInv(w, run[0]);
      StepKeepsAttempts(w, run[0]);
      ExecKeepsAttempts(Step(w, run[0]), run[1..]);
    }
  }

  /** Start times of the runs of `j` strictly grow in insertion order. */
  ghost predicate StartsGrow(db: Db, j: JobId) {
    forall r1, r2 :: SameJob(db, r1, r2) && db.runs[r1].job == j && db.runs[r1].attempt < db.runs[r2].attempt ==>
      db.runs[r1].startedAt < db.runs[r2].startedAt
  }

  /** Moreover no two of them have the same number. */
  ghost predicate StartsInOrder(db: Db, j: JobId) {
    forall r1, r2 :: SameJob(db, r1, r2) && db.runs[r1].job == j && r1 != r2 ==>
      && db.runs[r1].attempt != db.runs[r2].attempt
      && (db.runs[r1].attempt < db.runs[r2].attempt ==> db.runs[r1].startedAt < db.runs[r2].startedAt)
  }

  lemma {:induction false} LeadingFailuresPrefix(runs: map<RunId, Run>, listing: seq<RunId>)
    requires forall i :: 0 <= i < |listing| ==> listing[i] in runs
    ensures var k := LeadingFailures(runs, listing);
            && k <= |listing|
            && (forall i :: 0 <= i < k ==> runs[listing[i]].status == Failed)
            && (k < |listing| ==> runs[listing[k]].status != Failed)
  {
    if listing != [] && runs[listing[0]].status == Failed {
      LeadingFailuresPrefix(runs, listing[1..]);
      var k := LeadingFailures(runs, listing[1..]);
      assert forall i :: 0 < i < k + 1 ==> listing[i] == listing[1..][i - 1];
      assert k < |listing[1..]| ==> listing[1..][k] == listing[k + 1];
    }
  }

  function Elements(s: seq<RunId>): set<RunId> {
    set x | x in s
  }

  lemma {:induction false} DistinctCount(s: seq<RunId>)
    requires forall i, j :: 0 <= i < j < |s| ==> s[i] != s[j]
    ensures |Elements(s)| == |s|
  {
    if s != [] {
      var n := |s| - 1;
      DistinctCount(s[..n]);
      assert Elements(s) == Elements(s[..n]) + {s[n]};
      assert s[n] !in s[..n];
    }
  }

  /** The failures counted in the newest rows are the true trailing failures, up to the limit. */
  lemma CountedFailuresAreTrailing(db: Db, j: JobId, listing: seq<RunId>)
    requires StartsInOrder(db, j) && IsNewestFirst(db, j, listing)
    ensures LeadingFailures(db.runs, listing) == Min(|TrailingFailed(db, j)|, RECENT_LIMIT)
  {
    LeadingFailuresPrefix(db.runs, listing);
    var k := LeadingFailures(db.runs, listing);
    var prefix := listing[..k];
    DistinctCount(prefix);
    var trailing := TrailingFailed(db, j);
    PrefixIsTrailing(db, j, listing, k);
    if k < |listing| || |listing| < RECENT_LIMIT {
      TrailingIsPrefix(db, j, listing, k);
      assert trailing == Elements(prefix);
    } else {
      assert prefix == listing;
      SubsetSize(Elements(prefix), trailing);
    }
  }

  lemma {:induction false} SubsetSize(a: set<RunId>, b: set<RunId>)
    requires a <= b
    ensures |a| <= |b|
    decreases |a|
  {
    if a != {} {
      var x :| x in a;
      SubsetSize(a - {x}, b - {x});
    }
  }

  lemma PrefixIsTrailing(db: Db, j: JobId, listing: seq<RunId>, k: nat)
    requires StartsInOrder(db, j) && IsNewestFirst(db, j, listing) && k <= |listing|
    requires forall i :: 0 <= i < k ==> db.runs[listing[i]].status == Failed
    ensures Elements(listing[..k]) <= TrailingFailed(db, j)
  {
    forall i | 0 <= i < k ensures AllFailedFrom(db, j, db.runs[listing[i]].attempt) {
      forall r | r in db.runs && db.runs[r].job == j && db.runs[r].attempt >= db.runs[listing[i]].attempt
        ensures db.runs[r].status == Failed
      {
        assert SameJob(db, listing[i], r) && SameJob(db, r, listing[i]);
        assert r == listing[i] || db.runs[r].startedAt > db.runs[listing[i]].startedAt;
        assert r in listing;
        var m :| 0 <= m < |listing| && listing[m] == r;
        assert m <= i;
      }
    }
  }

  lemma TrailingIsPrefix(db: Db, j: JobId, listing: seq<RunId>, k: nat)
    requires StartsInOrder(db, j) && IsNewestFirst(db, j, listing) && k <= |listing|
    requires k < |listing| ==> db.runs[listing[k]].status != Failed
    requires k == |listing| ==> |listing| < RECENT_LIMIT
    ensures TrailingFailed(db, j) <= Elements(listing[..k])
  {
    forall r | r in TrailingFailed(db, j) ensures r in listing[..k] {
      if k < |listing| {
        var stop := listing[k];
        assert SameJob(db, stop, r);
        assert db.runs[stop].attempt < db.runs[r].attempt;
        assert db.runs[stop].startedAt < db.runs[r].startedAt;
      }
      assert r in listing;
      var m :| 0 <= m < |listing| && listing[m] == r;
      assert listing[..k][m] == r;
    }
  }

  /** The row update of a failed recurring run, in terms of the failures it counted. */
  lemma FailureUpdate(db: Db, claim: Claim, outcome: Outcome, now: Time, scheduled: Time, listing: seq<RunId>)
    requires outcome.Failure? && Owns(db, claim)
    requires Recurs(claim) && RowUnchanged(db, claim) && db.jobs[claim.jobId].enabled
    ensures var finished := FinishRun(db, claim, Failed, Some(outcome.error), now);
            var db' := Complete(db, claim, outcome, now, Some(scheduled), listing);
            && db'.runs == finished.runs
            && claim.jobId in db'.jobs
            && db'.jobs[claim.jobId].nextRunAt ==
                 Some(Max(scheduled, now + FailureBackoffSeconds(LeadingFailures(finished.runs, listing)) * SECOND))
  {
  }

  /** Ending the last inserted run as failed makes it a trailing failure. */
  lemma EndedRunTrails(db: Db, claim: Claim, error: string, now: Time)
    requires Owns(db, claim) && db.runs[claim.runId].job == claim.jobId && AttemptsRecordOrder(db)
    requires StartsGrow(db, claim.jobId)
    ensures var finished := FinishRun(db, claim, Failed, Some(error), now);
            StartsInOrder(finished, claim.jobId) && claim.runId in TrailingFailed(finished, claim.jobId)
  {
    var finished := FinishRun(db, claim, Failed, Some(error), now);
    forall r1, r2 | SameJob(finished, r1, r2) ensures SameJob(db, r1, r2) {}
    forall r | r in finished.runs && finished.runs[r].job == claim.jobId
               && finished.runs[r].attempt >= finished.runs[claim.runId].attempt
      ensures finished.runs[r].status == Failed
    {
      assert SameJob(db, claim.runId, r);
    }
  }

  /** A scheduled failure of a recurring job is recorded by the owner of its run, on a job row that
      accepts it, with the answer of the listing query, at a moment when the job's start times
      grew in insertion order. */
  ghost predicate RecordsFailure(w: World, e: Event) {
    && Legal(w, e) && e.FinishEvent? && e.outcome.Failure? && e.scheduled.Some?
    && var claim := w.claims[e.runId];
    && Owns(w.db, claim) && Recurs(claim)
    && RowUnchanged(w.db, claim) && w.db.jobs[claim.jobId].enabled
    && IsNewestFirst(FinishRun(w.db, claim, Failed, Some(e.outcome.error), e.at), claim.jobId, e.listing)
    && StartsGrow(w.db, claim.jobId)
  }

  /** The next run of `j` is the schedule's own instant or the doubling backoff of the true
      number of trailing failures, whichever is later. */
  ghost predicate BacksOff(db: Db, j: JobId, scheduled: Time, now: Time) {
    var k := |TrailingFailed(db, j)|;
    && k >= 1
    && j in db.jobs
    && db.jobs[j].nextRunAt == Some(Max(scheduled, now + Min(10 * Pow2(k - 1), 3600) * SECOND))
  }

  lemma FailureBacksOffAt(w: World, e: Event)
    requires Inv(w) && AttemptsRecordOrder(w.db) && RecordsFailure(w, e)
    ensures BacksOff(Step(w, e).db, w.claims[e.runId].jobId, e.scheduled.value, e.at)
  {
    var claim := w.claims[e.runId];
    assert w.db.runs[claim.runId].job == claim.jobId;
    assert Step(w, e).db == Complete(w.db, claim, e.outcome, e.at, Some(e.scheduled.value), e.listing);
    TransactionBacksOff(w.db, claim, e.outcome, e.at, e.scheduled.value, e.listing);
  }

  lemma TransactionBacksOff(db: Db, claim: Claim, outcome: Outcome, now: Time, scheduled: Time, listing: seq<RunId>)
    requires outcome.Failure? && Owns(db, claim) && db.runs[claim.runId].job == claim.jobId
    requires Recurs(claim) && RowUnchanged(db, claim) && db.jobs[claim.jobId].enabled
    requires AttemptsRecordOrder(db) && StartsGrow(db, claim.jobId)
    requires IsNewestFirst(FinishRun(db, claim, Failed, Some(outcome.error), now), claim.jobId, listing)
    ensures BacksOff(Complete(db, claim, outcome, now, Some(scheduled), listing), claim.jobId, scheduled, now)
  {
    FailureUpdate(db, claim, outcome, now, scheduled, listing);
    CountedBackoff(db, claim, outcome.error, now, listing);
    SameTrailing(FinishRun(db, claim, Failed, Some(outcome.error), now),
                 Complete(db, claim, outcome, now, Some(scheduled), listing), claim.jobId);
  }

  lemma CountedBackoff(db: Db, claim: Claim, error: string, now: Time, listing: seq<RunId>)
    requires Owns(db, claim) && db.runs[claim.runId].job == claim.jobId && AttemptsRecordOrder(db) && StartsGrow(db, claim.jobId)
    requires IsNewestFirst(FinishRun(db, claim, Failed, Some(error), now), claim.jobId, listing)
    ensures var finished := FinishRun(db, claim, Failed, Some(error), now);
            var k := |TrailingFailed(finished, claim.jobId)|;
            k >= 1 && FailureBackoffSeconds(LeadingFailures(finished.runs, listing)) == Min(10 * Pow2(k - 1), 3600)
  {
    var finished := FinishRun(db, claim, Failed, Some(error), now);
    EndedRunTrails(db, claim, error, now);
    CountedFailuresAreTrailing(finished, claim.jobId, listing);
    var k := |TrailingFailed(finished, claim.jobId)|;
    assert k >= 1;
    BackoffIgnoresOlderRows(k);
    BackoffIsCappedDoubling(k);
  }

  /** In every run, a scheduled failure of a recurring job that its owner records and the job row
      accepts sets the next run to the schedule's own or to the doubling backoff of the number of
      trailing failures on record, reclaimed runs included, whichever is later, though only the
      newest 50 runs were read. As long as nothing is pruned, that is their true number. */
  lemma FailureBacksOff(w0: World, run: seq<Event>, e: Event)
    requires Inv(w0) && LegalRun(w0, run) && AttemptsRecordOrder(w0.db)
    requires RecordsFailure(Exec(w0, run), e)
    ensures var w := Exec(w0, run);
            BacksOff(Step(w, e).db, w.claims[e.runId].jobId, e.scheduled.value, e.at)
  {
    ExecKeepsInv(w0, run);
    ExecKeepsAttempts(w0, run);
    FailureBacksOffAt(Exec(w0, run), e);
  }

  lemma SameTrailing(db: Db, db': Db, j: JobId)
    requires db.runs == db'.runs
    ensures TrailingFailed(db, j) == TrailingFailed(db', j)
  {
    assert forall n: nat :: AllFailedFrom(db, j, n) == AllFailedFrom(db', j, n);
  }
}
