/** The mirror beside a working scheduler: what a synchronisation does after any history of
    claims, completions, retirements, refreshes, pruning, pauses and resumptions. */
module HermesHistory {
  import opened Common
  import opened CronTypes
  import opened CronStatements
  import opened CronScheduler
  import opened CronEnvironment
  import opened CronWorld
  import opened CronTiming
  import opened HermesMerge
  import opened HermesSync
  import opened HermesSyncLaws

  /** What happens between two synchronisations. */
  datatype Action =
    | Claiming(q: Request)
    | Completing(claim: Claim, outcome: Outcome, now: Time, scheduled: Option<Time>, listing: seq<RunId>)
    /** Pausing and resuming: any change of the switch and the next run. */
    | Switching(job: JobId, enabled: bool, next: Option<Time>, now: Time)
    /** Refreshing and pruning: any change of `cron_runs` alone. */
    | RunsChange(runs: map<RunId, Run>)

  function Act(db: Db, a: Action): Db {
    match a
    case Claiming(q) => ClaimJob(db, q).db
    case Completing(claim, outcome, now, scheduled, listing) => Complete(db, claim, outcome, now, scheduled, listing)
    case Switching(job, enabled, next, now) =>
      if job in db.jobs
      then db.(jobs := db.jobs[job := db.jobs[job].(enabled := enabled, nextRunAt := next, updatedAt := now)])
      else db
    case RunsChange(runs) => db.(runs := runs)
  }

  /** Run ids are fresh, and counters are below the signed 64-bit limit. */
  predicate IsOrdinary(db: Db, a: Action) {
    match a
    case Claiming(q) => q.runId !in db.runs
    case Completing(claim, _, _, _, _) => HasRoom(db, claim.jobId)
    case _ => true
  }

  predicate HasRoom(db: Db, j: JobId) {
    j in db.jobs && IsHermesRow(db.jobs[j]) ==> db.jobs[j].payload.repeat.completed.n < I64_MAX - 1
  }

  // ---------------------------------------------------------------------
  // Changing one row.
  // ---------------------------------------------------------------------

  /** The changed row is the same store's, and still follows whatever it followed. */
  ghost predicate KeepsTrack(row: Job, row': Job) {
    && row'.authority == row.authority
    && (row'.payload.Object? && row'.payload.source.Text? ==>
          row.payload.Object? && row.payload.source == row'.payload.source)
    && forall e: Entry :: e.Import? && IsHermesPayload(e.payload) && IsHermesRow(row) && Tracks(row, e) ==> Tracks(row', e)
  }

  lemma TrackedIsHermes(row: Job, e: Entry)
    requires e.Import? && IsHermesPayload(e.payload) && row.authority == HermesMirror && Tracks(row, e)
    ensures IsHermesRow(row)
  {
    PayloadMergeSettles(row.payload, e.payload);
  }

  lemma RowChangeKeepsSettled(jobs: map<JobId, Job>, j: JobId, row': Job, stores: seq<Store>, since: Time)
    requires AreStores(stores) && AllSettled(jobs, stores, since) && j in jobs && KeepsTrack(jobs[j], row')
    ensures AllSettled(jobs[j := row'], stores, since)
  {
    var jobs' := jobs[j := row'];
    forall i | 0 <= i < |stores| ensures StoreSettled(jobs', stores[i], since) {
      var store := stores[i];
      assert StoreSettled(jobs, store, since);
      if store.Loaded? {
        forall k | 0 <= k < |store.entries| ensures EntrySettled(jobs', store.entries[k], since) {
          var e := store.entries[k];
          assert EntrySettled(jobs, e, since) && IsEntryOf(e, store.source);
          if e.Import? && e.ValidAt(since) && e.id == j && row'.authority == HermesMirror {
            TrackedIsHermes(jobs[j], e);
          }
        }
        forall id | id in jobs' ensures !Stale(jobs'[id], id, store, since) {
          assert !Stale(jobs[id], id, store, since);
        }
      }
    }
  }

  // ---------------------------------------------------------------------
  // Retirement and completion.
  // ---------------------------------------------------------------------

  lemma RetirementKeepsTrack(row: Job, now: Time)
    ensures KeepsTrack(row, Retired(row, now))
  {
    var row' := Retired(row, now);
    forall e: Entry | e.Import? && IsHermesPayload(e.payload) && IsHermesRow(row) && Tracks(row, e) ensures Tracks(row', e) {
      assert MergePayload(row'.payload, e.payload) == row'.payload;
    }
  }

  /** A completed payload still follows the source. */
  lemma ResultKeepsTrack(row: Job, claim: Claim, outcome: Outcome, now: Time, e: Entry)
    requires e.Import? && IsHermesPayload(e.payload) && IsHermesRow(row) && Tracks(row, e)
    requires claim.job.payload == row.payload && row.payload.repeat.completed.n < I64_MAX - 1
    ensures Tracks(row.(payload := CompletedPayload(claim, outcome, now)), e)
  {
    var p := CompletedPayload(claim, outcome, now);
    assert p.repeat.completed.n == row.payload.repeat.completed.n + 1;
    assert MergePayload(p, e.payload) == p;
  }

  /** The job row after a completion: as before, or with the completed payload. */
  lemma CompletedRow(db: Db, claim: Claim, outcome: Outcome, now: Time, scheduled: Option<Time>, listing: seq<RunId>)
    requires claim.jobId in db.jobs
    ensures var row, jobs' := db.jobs[claim.jobId], Complete(db, claim, outcome, now, scheduled, listing).jobs;
            && claim.jobId in jobs'
            && var row' := jobs'[claim.jobId];
            && jobs' == db.jobs[claim.jobId := row']
            && row'.authority == row.authority && row'.expression == row.expression
            && (row' == row || (RowUnchanged(db, claim) && row'.payload == CompletedPayload(claim, outcome, now)))
  {
  }

  lemma CompletionKeepsTrack(db: Db, claim: Claim, outcome: Outcome, now: Time, scheduled: Option<Time>, listing: seq<RunId>)
    requires claim.jobId in db.jobs && HasRoom(db, claim.jobId)
    ensures claim.jobId in Complete(db, claim, outcome, now, scheduled, listing).jobs
    ensures KeepsTrack(db.jobs[claim.jobId], Complete(db, claim, outcome, now, scheduled, listing).jobs[claim.jobId])
  {
    CompletedRow(db, claim, outcome, now, scheduled, listing);
    var row, row' := db.jobs[claim.jobId], Complete(db, claim, outcome, now, scheduled, listing).jobs[claim.jobId];
    if row' != row {
      forall e: Entry | e.Import? && IsHermesPayload(e.payload) && IsHermesRow(row) && Tracks(row, e) ensures Tracks(row', e) {
        ResultKeepsTrack(row, claim, outcome, now, e);
      }
    }
  }

  // ---------------------------------------------------------------------
  // Histories.
  // ---------------------------------------------------------------------

  lemma ActKeepsSettled(db: Db, stores: seq<Store>, since: Time, a: Action)
    requires AreStores(stores) && AllSettled(db.jobs, stores, since) && IsOrdinary(db, a)
    ensures AllSettled(Act(db, a).jobs, stores, since)
  {
    match a
    case Claiming(q) =>
      ClaimEffect(db, q);
      if Act(db, a).jobs != db.jobs {
        RetirementKeepsTrack(db.jobs[q.job], q.now);
        RowChangeKeepsSettled(db.jobs, q.job, Retired(db.jobs[q.job], q.now), stores, since);
      }
    case Completing(claim, outcome, now, scheduled, listing) =>
      if claim.jobId in db.jobs {
        CompletedRow(db, claim, outcome, now, scheduled, listing);
        CompletionKeepsTrack(db, claim, outcome, now, scheduled, listing);
        RowChangeKeepsSettled(db.jobs, claim.jobId, Act(db, a).jobs[claim.jobId], stores, since);
      } else {
        assert Act(db, a).jobs == db.jobs;
      }
    case Switching(job, enabled, next, now) =>
      if job in db.jobs {
        RowChangeKeepsSettled(db.jobs, job, Act(db, a).jobs[job], stores, since);
      }
    case RunsChange(_) =>
  }

  function ActAll(db: Db, run: seq<Action>): Db
    decreases |run|
  {
    if run == [] then db else ActAll(Act(db, run[0]), run[1..])
  }

  predicate AllOrdinary(db: Db, run: seq<Action>)
    decreases |run|
  {
    run == [] || (IsOrdinary(db, run[0]) && AllOrdinary(Act(db, run[0]), run[1..]))
  }

  lemma {:induction false} HistoryKeepsSettled(db: Db, stores: seq<Store>, since: Time, run: seq<Action>)
    requires AreStores(stores) && AllSettled(db.jobs, stores, since) && AllOrdinary(db, run)
    ensures AllSettled(ActAll(db, run).jobs, stores, since)
    decreases |run|
  {
    if run != [] {
      ActKeepsSettled(db, stores, since, run[0]);
      HistoryKeepsSettled(Act(db, run[0]), stores, since, run[1..]);
    }
  }

  /** Two consecutive synchronisations of unchanged stores, with any history between them, from
      any tables: the second one deletes exactly the rows whose schedules have run out, with
      their runs, resets exactly the rows that were switched against their source, and keeps
      schedule, counter and results of all others. */
  lemma SyncAfterHistory(db: Db, stores: seq<Store>, first: Time, run: seq<Action>, now: Time, id: JobId)
    requires AreStores(stores) && first <= now && AllOrdinary(SyncAt(db, stores, first), run)
    ensures var before := ActAll(SyncAt(db, stores, first), run);
            var after := SyncAt(before, stores, now);
            RowEffect(before.jobs, after.jobs, stores, id, now) && RunsFollow(before, after)
  {
    var once := SyncAt(db, stores, first);
    SyncFixesAll(db, stores, first);
    FixedIsSettled(once.jobs, stores, first);
    HistoryKeepsSettled(once, stores, first, run);
    SettledRowSync(ActAll(once, run), stores, first, now, id);
    SettledRunsSync(ActAll(once, run), stores, first, now);
  }

  /** Resynchronising a job that follows its source is one of the outside events that the laws on
      repeats and one-shots allow. */
  lemma ResyncIsSpared(db: Db, e: Entry, now: Time)
    requires e.Import? && e.id in db.jobs
    requires db.jobs[e.id].authority == HermesMirror ==> Tracks(db.jobs[e.id], e) && !Overridden(db.jobs[e.id], e)
    ensures var db' := Apply(db, Mirror(e.id, Incoming(e, now)));
            SameDefinition(db, db', e.id) && LeavesArmed(db, db', e.id)
  {
    if db.jobs[e.id].authority == HermesMirror {
      MergeTracked(db.jobs[e.id], e, now);
    }
  }

  // ---------------------------------------------------------------------
  // One completion.
  // ---------------------------------------------------------------------

  /** A failed recurring run whose next instant, in UTC, does not exist switches its job off. */
  predicate SwitchesOff(db: Db, claim: Claim, outcome: Outcome, scheduled: Option<Time>) {
    && Owns(db, claim) && RowUnchanged(db, claim) && db.jobs[claim.jobId].enabled
    && outcome.Failure? && Recurs(claim) && scheduled.None?
  }

  /** A completion that ends its run sets a row against its source exactly when it switches
      the job off. */
  lemma OverriddenIff(db: Db, claim: Claim, outcome: Outcome, now: Time, scheduled: Option<Time>, listing: seq<RunId>, e: Entry)
    requires claim.jobId in db.jobs && IsHermesRow(db.jobs[claim.jobId]) && HasRoom(db, claim.jobId)
    requires e.Import? && IsHermesPayload(e.payload)
    requires Tracks(db.jobs[claim.jobId], e) && !Overridden(db.jobs[claim.jobId], e)
    ensures claim.jobId in Complete(db, claim, outcome, now, scheduled, listing).jobs
    ensures Overridden(Complete(db, claim, outcome, now, scheduled, listing).jobs[claim.jobId], e)
            <==> SwitchesOff(db, claim, outcome, scheduled)
  {
    CompletedRow(db, claim, outcome, now, scheduled, listing);
    var row, row' := db.jobs[claim.jobId], Complete(db, claim, outcome, now, scheduled, listing).jobs[claim.jobId];
    if row' != row {
      assert row'.payload.repeat.completed.n == row.payload.repeat.completed.n + 1;
      assert RepeatTimes(row.payload) == RepeatTimes(e.payload);
    }
  }

  /** What becomes of a mirrored job whose run completes between two synchronisations. If its
      schedule, in its own zone, has run out by the second one, the row is deleted. If the
      completion switched the job off and there is a next instant, it is armed for it again.
      In all other cases what the completion wrote survives. */
  lemma CompletionOutcome(
    db: Db, stores: seq<Store>, first: Time, i: nat, k: nat,
    claim: Claim, outcome: Outcome, at: Time, scheduled: Option<Time>, listing: seq<RunId>, now: Time)
    requires AreStores(stores) && first <= now && IsEntry(stores, i, k, claim.jobId)
    requires stores[i].entries[k].Import? && stores[i].entries[k].ValidAt(first)
    requires var once := SyncAt(db, stores, first);
             && claim.jobId in once.jobs && once.jobs[claim.jobId].authority == HermesMirror && HasRoom(once, claim.jobId)
    ensures var e, once := stores[i].entries[k], SyncAt(db, stores, first);
            var done := Complete(once, claim, outcome, at, scheduled, listing);
            var after := SyncAt(done, stores, now).jobs;
            var j := claim.jobId;
            if !IsOneShot(e.expression) && e.computedNext(now).None? then
              j !in after
            else
              && j in done.jobs && j in after
              && if SwitchesOff(once, claim, outcome, scheduled)
                 then !done.jobs[j].enabled && after[j].enabled && after[j].nextRunAt.Some?
                      && after[j].nextRunAt == Incoming(e, now).nextRunAt
                 else SameRow(after[j], done.jobs[j])
  {
    var e, once, j := stores[i].entries[k], SyncAt(db, stores, first), claim.jobId;
    SyncFixesAll(db, stores, first);
    FixedIsSettled(once.jobs, stores, first);
    assert StoreFixed(once.jobs, stores[i], first) && EntryFixed(once.jobs, e, first);
    assert IsEntryOf(e, stores[i].source);
    TrackedIsHermes(once.jobs[j], e);
    OverriddenIff(once, claim, outcome, at, scheduled, listing, e);
    var done := Complete(once, claim, outcome, at, scheduled, listing);
    CompletionKeepsTrack(once, claim, outcome, at, scheduled, listing);
    CompletedRow(once, claim, outcome, at, scheduled, listing);
    ActKeepsSettled(once, stores, first, Completing(claim, outcome, at, scheduled, listing));
    SettledRowSync(done, stores, first, now, j);
    OutcomeOfRow(done, stores, now, i, k, j);
  }

  /** Reading the general effect for a job whose entry is known. */
  lemma OutcomeOfRow(db: Db, stores: seq<Store>, now: Time, i: nat, k: nat, j: JobId)
    requires AreStores(stores) && IsEntry(stores, i, k, j) && stores[i].entries[k].Import?
    requires j in db.jobs && db.jobs[j].authority == HermesMirror && Tracks(db.jobs[j], stores[i].entries[k])
    ensures Expires(db.jobs, stores, j, now) <==> !stores[i].entries[k].ValidAt(now)
    ensures IsOverridden(db.jobs, stores, j, now) <==>
              stores[i].entries[k].ValidAt(now) && Overridden(db.jobs[j], stores[i].entries[k])
  {
    var e := stores[i].entries[k];
    assert IsEntryOf(e, stores[i].source);
    TrackedIsHermes(db.jobs[j], e);
    assert IsRowOf(db.jobs[j], stores[i]);
    forall i': nat, k': nat | IsEntry(stores, i', k', j) ensures i' == i && k' == k {
      EntryIsUnique(stores, i, k, i', k', j);
    }
    assert ExpiresAt(db.jobs[j], stores[i], e, now) <==> !e.ValidAt(now);
    assert IsOverriddenBy(db.jobs[j], e, now) <==> e.ValidAt(now) && Overridden(db.jobs[j], e);
  }

  // ---------------------------------------------------------------------
  // Where it fails.
  // ---------------------------------------------------------------------

  /** A job for the last two days of 2030; in its own zone they begin at 5 and at 21. */
  function Zoned(): Entry {
    Import("hermes:p:z", "0 0 0 30,31 12 * 2030",
           Object(Repeat(Null, Number(0)), Missing, Missing, Null, Null, Null, Null, Text("jobs.json"), ""),
           true, None, (t: Time) => if t < 5 then Some(5) else if t < 21 then Some(21) else None, None)
  }

  const ZONED_STORES: seq<Store> := [Loaded("jobs.json", [Zoned()])]

  const ZONED_RUN: Run := Run(Zoned().id, "t", 5 + LEASE_DURATION, 5, None, Running, 1, None, None)

  function ZonedOnce(): Db {
    SyncAt(Db(map[], map["r" := ZONED_RUN]), ZONED_STORES, 0)
  }

  lemma ZonedIsStore()
    ensures AreStores(ZONED_STORES) && !IsOneShot(Zoned().expression)
  {
    var store := ZONED_STORES[0];
    assert IsEntryOf(store.entries[0], store.source);
    assert Zoned().expression[0] != "once:"[0];
  }

  lemma ZonedOnceIs()
    ensures ZonedOnce() == Db(map[Zoned().id := Incoming(Zoned(), 0)], map["r" := ZONED_RUN])
  {
    var db, store := Db(map[], map["r" := ZONED_RUN]), ZONED_STORES[0];
    assert ZONED_STORES[..0] == [] && store.entries[..0] == [];
    assert SyncAt(db, ZONED_STORES[..0], 0) == db;
    assert UpsertAll(db.jobs, store.entries, 0) == UpsertEntry(db.jobs, Zoned(), 0);
    assert store.entries[0].id in LiveIds(store.entries, 0);
    assert ZonedOnce().runs == db.runs;
  }

  /** Its first run fails at 10, when both days have begun in UTC, and the job is switched off;
      a synchronisation at 20 arms it again for 21. */
  lemma ZoneMismatchRearms()
    ensures var j := Zoned().id;
            var claim := Claim("r", "t", j, Incoming(Zoned(), 0), true);
            var done := Complete(ZonedOnce(), claim, Failure("x", false), 10, None, []);
            var after := SyncAt(done, ZONED_STORES, 20).jobs;
            && AreStores(ZONED_STORES)
            && j in done.jobs && !done.jobs[j].enabled
            && j in after && after[j].enabled && after[j].nextRunAt == Some(21)
  {
    ZonedIsStore();
    ZonedOnceIs();
    var claim := Claim("r", "t", Zoned().id, Incoming(Zoned(), 0), true);
    assert IsEntry(ZONED_STORES, 0, 0, claim.jobId);
    assert SwitchesOff(ZonedOnce(), claim, Failure("x", false), None);
    CompletionOutcome(Db(map[], map["r" := ZONED_RUN]), ZONED_STORES, 0, 0, 0, claim, Failure("x", false), 10, None, [], 20);
  }
}
