/** Synchronisation in the terms of the rows themselves: what every listed job's row becomes,
    member by member, which rows go, and how many are written. */
module HermesMeaning {
  import opened Common
  import opened CronTypes
  import opened CronStatements
  import opened CronScheduler
  import opened HermesMerge
  import opened HermesSync
  import opened HermesSyncLaws
  import opened CronMeaning

  /** The next run that a source job asks for: its own, or else the schedule's. */
  function NextOf(e: Entry, now: Time): Option<Time>
    requires e.Import?
  {
    if e.ownNext.Some? then e.ownNext else e.computedNext(now)
  }

  /** A valid job without a row gets one with its own members, armed for its next run. */
  lemma NewJobIsInserted(db: Db, stores: seq<Store>, now: Time, i: nat, k: nat, id: JobId)
    requires AreStores(stores) && IsEntry(stores, i, k, id) && stores[i].entries[k].Import?
    requires "once:" <= stores[i].entries[k].expression || stores[i].entries[k].computedNext(now).Some?
    requires id !in db.jobs
    ensures var e, jobs' := stores[i].entries[k], SyncAt(db, stores, now).jobs;
            && id in jobs'
            && jobs'[id] == Job(e.expression, e.payload, e.enabled, NextOf(e, now),
                                if e.created.Some? then e.created.value else now, now, HermesMirror)
  {
    SyncEntry(db, stores, now, i, k, id);
  }

  // ---------------------------------------------------------------------
  // Rows that are there.
  // ---------------------------------------------------------------------

  /** The repeat counter as the database reads it. */
  function CounterOf(p: Payload): nat {
    if p.Object? && p.repeat.Repeat? && p.repeat.completed.Number? then Min(p.repeat.completed.n, 0x7FFF_FFFF_FFFF_FFFF) else 0
  }

  /** The payloads agree but for the counter and the last result. */
  predicate SameTerms(p: Payload, q: Payload)
    requires q.Object? && q.repeat.Repeat?
  {
    && p.Object? && p.repeat.Repeat? && p.repeat.times == q.repeat.times
    && p.times == q.times && p.completed == q.completed && p.source == q.source && p.body == q.body
  }

  predicate IsOver(row: Job, e: Entry)
    requires e.Import? && e.payload.Object? && e.payload.repeat.Repeat?
  {
    var times := e.payload.repeat.times;
    && row.nextRunAt.None?
    && (|| ("once:" <= row.expression && row.expression == e.expression)
        || (times.Number? && times.n > 0 && CounterOf(row.payload) >= Min(times.n, 0x7FFF_FFFF_FFFF_FFFF)))
  }

  predicate IsSet(f: Field) {
    !f.Missing? && !f.Null?
  }

  function OrNull(f: Field): Field {
    if f.Missing? then Null else f
  }

  /** The source's payload with the larger counter, and the row's last result if it has one. */
  predicate IsMerged(p: Payload, q: Payload, p': Payload)
    requires q.Object? && q.repeat.Repeat?
  {
    && p'.Object? && p'.repeat.Repeat? && p'.repeat.times == q.repeat.times
    && p'.times == q.times && p'.completed == q.completed && p'.source == q.source && p'.body == q.body
    && p'.repeat.completed == (if CounterOf(p) > CounterOf(q) then Number(CounterOf(p)) else q.repeat.completed)
    && if p.Object? && IsSet(p.lastStatus)
       then && p'.lastStatus == p.lastStatus && p'.lastRunAt == OrNull(p.lastRunAt)
            && p'.lastError == OrNull(p.lastError) && p'.lastDeliveryError == OrNull(p.lastDeliveryError)
       else && p'.lastStatus == q.lastStatus && p'.lastRunAt == q.lastRunAt
            && p'.lastError == q.lastError && p'.lastDeliveryError == q.lastDeliveryError
  }

  lemma MergedIs(p: Payload, q: Payload)
    requires IsHermesPayload(q)
    ensures IsMerged(p, q, MergePayload(p, q))
  {
  }

  lemma SameTermsIff(p: Payload, q: Payload)
    requires IsHermesPayload(q)
    ensures SameTerms(p, q) <==> Definition(p) == Definition(q)
  {
  }

  /** The row of a valid job after a synchronisation, member by member: a finished one-shot or
      exhausted job keeps its switch and stays unarmed; another one takes the source's switch, and
      its next run if and only if expression, terms or switch differ. */
  predicate IsUpdated(row: Job, row': Job, e: Entry, now: Time)
    requires e.Import? && e.payload.Object? && e.payload.repeat.Repeat?
  {
    var changed := row.expression != e.expression || !SameTerms(row.payload, e.payload) || row.enabled != e.enabled;
    && row'.expression == e.expression && row'.createdAt == row.createdAt && row'.authority == HermesMirror && row'.updatedAt == now
    && IsMerged(row.payload, e.payload, row'.payload)
    && row'.enabled == (if IsOver(row, e) then row.enabled else e.enabled)
    && row'.nextRunAt == (if IsOver(row, e) then None else if changed then NextOf(e, now) else row.nextRunAt)
  }

  lemma MergeUpdates(row: Job, e: Entry, now: Time)
    requires e.Import? && IsHermesPayload(e.payload) && row.authority == HermesMirror
    ensures IsUpdated(row, Merge(row, Incoming(e, now)), e, now)
  {
    MergedIs(row.payload, e.payload);
    SameTermsIff(row.payload, e.payload);
  }

  lemma MirroredRowIsUpdated(db: Db, stores: seq<Store>, now: Time, i: nat, k: nat, id: JobId)
    requires AreStores(stores) && IsEntry(stores, i, k, id) && stores[i].entries[k].Import?
    requires "once:" <= stores[i].entries[k].expression || stores[i].entries[k].computedNext(now).Some?
    requires id in db.jobs && db.jobs[id].authority == HermesMirror
    requires forall m :: 0 <= m < |stores| && m != i && stores[m].Loaded? ==> !IsRowOf(db.jobs[id], stores[m])
    ensures IsEntryOf(stores[i].entries[k], stores[i].source)
    ensures var jobs' := SyncAt(db, stores, now).jobs;
            id in jobs' && IsUpdated(db.jobs[id], jobs'[id], stores[i].entries[k], now)
  {
    assert IsEntryOf(stores[i].entries[k], stores[i].source);
    SyncEntry(db, stores, now, i, k, id);
    MergeUpdates(db.jobs[id], stores[i].entries[k], now);
  }

  // ---------------------------------------------------------------------
  // Rows that no store lists.
  // ---------------------------------------------------------------------

  lemma UnlistedInStore(db: Db, store: Store, now: Time, id: JobId)
    requires id in db.jobs && (store.Loaded? ==> id !in AllIds(store.entries))
    ensures var jobs' := SyncStore(db, store, now).jobs;
            && (id in jobs' <==> !(store.Loaded? && IsRowOf(db.jobs[id], store)))
            && (id in jobs' ==> jobs'[id] == db.jobs[id])
  {
    if store.Loaded? {
      UpsertAllOutside(db.jobs, store.entries, now, id);
      assert id !in LiveIds(store.entries, now);
    }
  }

  lemma AbsentStaysAbsent(db: Db, store: Store, now: Time, id: JobId)
    requires id !in db.jobs && (store.Loaded? ==> id !in AllIds(store.entries))
    ensures id !in SyncStore(db, store, now).jobs
  {
    if store.Loaded? {
      UpsertAllOutside(db.jobs, store.entries, now, id);
    }
  }

  /** The row carries the source mark of some store that could be read. */
  ghost predicate ComesFromOne(row: Job, stores: seq<Store>) {
    exists m :: 0 <= m < |stores| && IsMarked(row, stores[m])
  }

  predicate IsMarked(row: Job, store: Store) {
    && store.Loaded? && row.authority == HermesMirror
    && row.payload.Object? && row.payload.source == Text(store.source)
  }

  /** A row that no store lists is deleted if and only if it was mirrored from one of them. */
  lemma {:induction false} UnlistedRow(db: Db, stores: seq<Store>, now: Time, id: JobId)
    requires forall m :: 0 <= m < |stores| && stores[m].Loaded? ==> id !in AllIds(stores[m].entries)
    ensures var jobs' := SyncAt(db, stores, now).jobs;
            && (id in jobs' <==> id in db.jobs && !ComesFromOne(db.jobs[id], stores))
            && (id in jobs' ==> jobs'[id] == db.jobs[id])
  {
    if stores != [] {
      var n := |stores| - 1;
      var init := stores[..n];
      UnlistedRow(db, init, now, id);
      var mid := SyncAt(db, init, now);
      if id in db.jobs {
        assert ComesFromOne(db.jobs[id], stores) <==> ComesFromOne(db.jobs[id], init) || IsMarked(db.jobs[id], stores[n]) by {
          if m :| 0 <= m < |stores| && IsMarked(db.jobs[id], stores[m]) {
            assert m < n ==> IsMarked(db.jobs[id], init[m]);
          }
          if m :| 0 <= m < |init| && IsMarked(db.jobs[id], init[m]) {
            assert IsMarked(db.jobs[id], stores[m]);
          }
        }
      }
      if id in mid.jobs {
        UnlistedInStore(mid, stores[n], now, id);
      } else {
        AbsentStaysAbsent(mid, stores[n], now, id);
      }
    }
  }

  // ---------------------------------------------------------------------
  // Counting.
  // ---------------------------------------------------------------------

  /** Those of the first `n` entries whose row an import may write. */
  function Writable(jobs: map<JobId, Job>, entries: seq<Entry>, now: Time, n: nat): set<nat>
    requires n <= |entries|
  {
    set i: nat | i < n && IsWritable(jobs, entries[i], now)
  }

  predicate IsWritable(jobs: map<JobId, Job>, e: Entry, now: Time) {
    && e.Import? && ("once:" <= e.expression || e.computedNext(now).Some?)
    && (e.id !in jobs || jobs[e.id].authority == HermesMirror)
  }

  lemma WritableStep(jobs: map<JobId, Job>, entries: seq<Entry>, now: Time, n: nat)
    requires n < |entries|
    ensures |Writable(jobs, entries, now, n + 1)| == |Writable(jobs, entries, now, n)| + if IsWritable(jobs, entries[n], now) then 1 else 0
  {
    var here: set<nat> := if IsWritable(jobs, entries[n], now) then {n} else {};
    assert Writable(jobs, entries, now, n + 1) == Writable(jobs, entries, now, n) + here;
    assert n !in Writable(jobs, entries, now, n);
  }

  lemma CountStep(jobs: map<JobId, Job>, entries: seq<Entry>, now: Time)
    requires DistinctIds(entries) && entries != []
    ensures var n := |entries| - 1;
            CountImported(jobs, entries, now)
            == CountImported(jobs, entries[..n], now) + if IsWritable(jobs, entries[n], now) then 1 else 0
  {
    var n := |entries| - 1;
    UpsertAllOutside(jobs, entries[..n], now, entries[n].id);
  }

  lemma {:induction false} CountUpTo(jobs: map<JobId, Job>, entries: seq<Entry>, now: Time, n: nat)
    requires DistinctIds(entries) && n <= |entries|
    ensures CountImported(jobs, entries[..n], now) == |Writable(jobs, entries, now, n)|
  {
    if n == 0 {
      assert Writable(jobs, entries, now, 0) == {};
    } else {
      CountUpTo(jobs, entries, now, n - 1);
      WritableStep(jobs, entries, now, n - 1);
      CountStep(jobs, entries[..n], now);
      assert entries[..n][..n - 1] == entries[..n - 1];
    }
  }

  /** The number reported for a store is that of the valid jobs whose row is mirrored or new. */
  lemma ImportedCount(jobs: map<JobId, Job>, entries: seq<Entry>, now: Time)
    requires DistinctIds(entries)
    ensures CountImported(jobs, entries, now) == |Writable(jobs, entries, now, |entries|)|
  {
    CountUpTo(jobs, entries, now, |entries|);
    assert entries[..|entries|] == entries;
  }

  // ---------------------------------------------------------------------
  // An example.
  // ---------------------------------------------------------------------

  const NEW_YEAR: Time := 1_893_456_000 * SECOND

  /** A one-shot for the first instant of 2030, schedulable until 120 seconds after it. */
  function OneShot2030(): Entry {
    Import("hermes:p:o", "once:2030-01-01T00:00:00Z",
           Object(Repeat(Null, Number(0)), Missing, Missing, Null, Null, Null, Null, Text("jobs.json"), ""),
           true, None, (t: Time) => if t - NEW_YEAR <= 120 * SECOND then Some(NEW_YEAR) else None, None)
  }

  /** Synchronised into empty tables it is armed for its instant, and a poll at that instant claims it. */
  lemma OneShotIsArmedAndRuns(q: Request)
    requires q.job == OneShot2030().id && q.now == NEW_YEAR && q.requireDue && !q.cutoverPending
    ensures var db := SyncAt(Db(map[], map[]), [Loaded("jobs.json", [OneShot2030()])], 0);
            && q.job in db.jobs && db.jobs[q.job].enabled && db.jobs[q.job].nextRunAt == Some(NEW_YEAR)
            && ClaimJob(db, q).claim.Some?
  {
    var e, store := OneShot2030(), Loaded("jobs.json", [OneShot2030()]);
    var stores := [store];
    assert "once:" <= e.expression;
    assert IsEntryOf(store.entries[0], store.source);
    assert IsEntry(stores, 0, 0, e.id);
    NewJobIsInserted(Db(map[], map[]), stores, 0, 0, 0, e.id);
    var db := SyncAt(Db(map[], map[]), stores, 0);
    NoRunsAppear(Db(map[], map[]), stores, 0);
    ClaimedIff(db, q);
  }

  lemma {:induction false} NoRunsAppear(db: Db, stores: seq<Store>, now: Time)
    ensures SyncAt(db, stores, now).runs.Keys <= db.runs.Keys
  {
    if stores != [] {
      NoRunsAppear(db, stores[..|stores| - 1], now);
    }
  }
}
