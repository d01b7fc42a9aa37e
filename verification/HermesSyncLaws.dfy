/** Laws of synchronising all stores: other authorities untouched, what one synchronisation does
    to each row, and what any number of them do. */
module HermesSyncLaws {
  import opened Common
  import opened CronTypes
  import opened CronStatements
  import opened HermesMerge
  import opened HermesSync

  // ---------------------------------------------------------------------
  // What a store may contain.
  // ---------------------------------------------------------------------

  function AllIds(entries: seq<Entry>): set<JobId> {
    set i | 0 <= i < |entries| :: entries[i].id
  }

  ghost predicate DistinctIds(entries: seq<Entry>) {
    forall i, j :: 0 <= i < j < |entries| ==> entries[i].id != entries[j].id
  }

  /** A schedule without a next instant has none later either. */
  ghost predicate RunsOutForGood(e: Entry) {
    forall t, t' :: t <= t' && e.ValidAt(t') ==> e.ValidAt(t)
  }

  ghost predicate IsEntryOf(e: Entry, source: string) {
    && RunsOutForGood(e)
    && (e.Import? ==> IsHermesPayload(e.payload) && e.payload.source == Text(source))
  }

  ghost predicate IsStore(store: Store) {
    store.Loaded? ==>
      && DistinctIds(store.entries)
      && forall i :: 0 <= i < |store.entries| ==> IsEntryOf(store.entries[i], store.source)
  }

  ghost predicate Apart(a: Store, b: Store) {
    a.Loaded? && b.Loaded? ==> a.source != b.source && AllIds(a.entries) !! AllIds(b.entries)
  }

  ghost predicate AreStores(stores: seq<Store>) {
    && (forall i :: 0 <= i < |stores| ==> IsStore(stores[i]))
    && (forall i, j :: 0 <= i < |stores| && 0 <= j < |stores| && i != j ==> Apart(stores[i], stores[j]))
  }

  // ---------------------------------------------------------------------
  // One store, row by row.
  // ---------------------------------------------------------------------

  function UpsertRow(jobs: map<JobId, Job>, e: Entry, now: Time): Job
    requires e.Import?
  {
    if e.id !in jobs then Incoming(e, now)
    else if jobs[e.id].authority == HermesMirror then Merge(jobs[e.id], Incoming(e, now))
    else jobs[e.id]
  }

  /** Row `id` is the same in both tables, or in neither. */
  ghost predicate SameAt(a: map<JobId, Job>, b: map<JobId, Job>, id: JobId) {
    (id in a <==> id in b) && (id in a ==> a[id] == b[id])
  }

  lemma {:induction false} UpsertAllOutside(jobs: map<JobId, Job>, entries: seq<Entry>, now: Time, id: JobId)
    requires forall i :: 0 <= i < |entries| && entries[i].Import? && entries[i].ValidAt(now) ==> entries[i].id != id
    ensures SameAt(UpsertAll(jobs, entries, now), jobs, id)
  {
    if entries != [] {
      UpsertAllOutside(jobs, entries[..|entries| - 1], now, id);
    }
  }

  lemma {:induction false} UpsertAllInside(jobs: map<JobId, Job>, entries: seq<Entry>, now: Time, i: nat)
    requires DistinctIds(entries) && i < |entries| && entries[i].Import? && entries[i].ValidAt(now)
    ensures entries[i].id in UpsertAll(jobs, entries, now)
    ensures UpsertAll(jobs, entries, now)[entries[i].id] == UpsertRow(jobs, entries[i], now)
  {
    var n := |entries| - 1;
    if i < n {
      UpsertAllInside(jobs, entries[..n], now, i);
    } else {
      UpsertAllOutside(jobs, entries[..n], now, entries[n].id);
    }
  }

  /** Rows under another authority are neither updated nor deleted. */
  lemma {:induction false} OtherAuthoritiesUntouched(db: Db, stores: seq<Store>, now: Time, id: JobId)
    requires id in db.jobs && db.jobs[id].authority != HermesMirror
    ensures id in SyncAt(db, stores, now).jobs && SyncAt(db, stores, now).jobs[id] == db.jobs[id]
  {
    if stores != [] {
      var n := |stores| - 1;
      OtherAuthoritiesUntouched(db, stores[..n], now, id);
      if stores[n].Loaded? {
        ImportLeavesOthers(SyncAt(db, stores[..n], now).jobs, stores[n].entries, now, id);
      }
    }
  }

  lemma {:induction false} ImportLeavesOthers(jobs: map<JobId, Job>, entries: seq<Entry>, now: Time, id: JobId)
    requires id in jobs && jobs[id].authority != HermesMirror
    ensures id in UpsertAll(jobs, entries, now) && UpsertAll(jobs, entries, now)[id] == jobs[id]
  {
    if entries != [] {
      ImportLeavesOthers(jobs, entries[..|entries| - 1], now, id);
    }
  }

  /** A store leaves a row alone that it neither lists nor once brought. */
  lemma ForeignRowStays(db: Db, store: Store, now: Time, id: JobId)
    requires store.Loaded? ==> id !in AllIds(store.entries) && (id in db.jobs ==> !IsRowOf(db.jobs[id], store))
    ensures SameAt(SyncStore(db, store, now).jobs, db.jobs, id)
  {
    if store.Loaded? {
      UpsertAllOutside(db.jobs, store.entries, now, id);
    }
  }

  /** What becomes of the row of a listed job. */
  ghost predicate EntryEffect(before: map<JobId, Job>, after: map<JobId, Job>, e: Entry, store: Store, now: Time)
    requires store.Loaded?
  {
    if e.ValidAt(now) && e.Import? then
      e.id in after && after[e.id] == UpsertRow(before, e, now)
    else if !e.ValidAt(now) && e.id in before && IsRowOf(before[e.id], store) then
      e.id !in after
    else
      SameAt(after, before, e.id)
  }

  lemma OwnRowEffect(db: Db, store: Store, now: Time, k: nat)
    requires IsStore(store) && store.Loaded? && k < |store.entries|
    ensures EntryEffect(db.jobs, SyncStore(db, store, now).jobs, store.entries[k], store, now)
  {
    var e := store.entries[k];
    if e.ValidAt(now) {
      assert e.id in LiveIds(store.entries, now);
      if e.Import? {
        UpsertAllInside(db.jobs, store.entries, now, k);
      } else {
        UpsertAllOutside(db.jobs, store.entries, now, e.id);
      }
    } else {
      NotLive(store.entries, now, k);
      UpsertAllOutside(db.jobs, store.entries, now, e.id);
    }
  }

  lemma NotLive(entries: seq<Entry>, now: Time, k: nat)
    requires DistinctIds(entries) && k < |entries| && !entries[k].ValidAt(now)
    ensures entries[k].id !in LiveIds(entries, now)
    ensures forall i :: 0 <= i < |entries| && entries[i].ValidAt(now) ==> entries[i].id != entries[k].id
  {
  }

  // ---------------------------------------------------------------------
  // All stores, row by row.
  // ---------------------------------------------------------------------

  lemma {:induction false} SyncSplits(db: Db, a: seq<Store>, b: seq<Store>, now: Time)
    ensures SyncAt(db, a + b, now) == SyncAt(SyncAt(db, a, now), b, now)
    decreases |b|
  {
    if b == [] {
      assert a + b == a;
    } else {
      var n := |b| - 1;
      assert (a + b)[..|a + b| - 1] == a + b[..n] && (a + b)[|a + b| - 1] == b[n];
      SyncSplits(db, a, b[..n], now);
    }
  }

  ghost predicate IsForeign(row: Job, id: JobId, store: Store) {
    store.Loaded? ==> id !in AllIds(store.entries) && !IsRowOf(row, store)
  }

  lemma {:induction false} ForeignRowStaysAll(db: Db, stores: seq<Store>, now: Time, id: JobId)
    requires forall i :: 0 <= i < |stores| && stores[i].Loaded? ==> id !in AllIds(stores[i].entries)
    requires id in db.jobs ==> forall i :: 0 <= i < |stores| ==> IsForeign(db.jobs[id], id, stores[i])
    ensures SameAt(SyncAt(db, stores, now).jobs, db.jobs, id)
  {
    if stores != [] {
      var n := |stores| - 1;
      ForeignRowStaysAll(db, stores[..n], now, id);
      assert id in db.jobs ==> IsForeign(db.jobs[id], id, stores[n]);
      ForeignRowStays(SyncAt(db, stores[..n], now), stores[n], now, id);
    }
  }

  ghost predicate IsEntry(stores: seq<Store>, i: nat, k: nat, id: JobId) {
    i < |stores| && stores[i].Loaded? && k < |stores[i].entries| && stores[i].entries[k].id == id
  }

  /** Every row that a store brought is still listed there. */
  ghost predicate Homed(jobs: map<JobId, Job>, stores: seq<Store>) {
    forall i, id :: 0 <= i < |stores| && stores[i].Loaded? && id in jobs && IsRowOf(jobs[id], stores[i]) ==>
      id in AllIds(stores[i].entries)
  }

  /** A whole synchronisation does to a listed row what its own store does. */
  lemma SyncEntry(db: Db, stores: seq<Store>, now: Time, i: nat, k: nat, id: JobId)
    requires AreStores(stores) && IsEntry(stores, i, k, id)
    requires forall m :: 0 <= m < |stores| && m != i && stores[m].Loaded? && id in db.jobs ==> !IsRowOf(db.jobs[id], stores[m])
    ensures EntryEffect(db.jobs, SyncAt(db, stores, now).jobs, stores[i].entries[k], stores[i], now)
  {
    var before, own, rest := stores[..i], stores[i], stores[i + 1..];
    assert id in AllIds(own.entries);
    assert stores == before + [own] + rest;
    SyncSplits(db, before + [own], rest, now);
    SyncSplits(db, before, [own], now);
    var db1 := SyncAt(db, before, now);
    ForeignRowStaysAll(db, before, now, id);
    assert [own][..0] == [];
    var db2 := SyncStore(db1, own, now);
    assert SyncAt(db1, [own], now) == db2;
    OwnRowEffect(db1, own, now, k);
    RowKeepsHome(db1, own, now, k, rest);
    ForeignRowStaysAll(db2, rest, now, id);
  }

  /** The row of a listed job, after its own store, belongs to no other store. */
  lemma RowKeepsHome(db: Db, store: Store, now: Time, k: nat, others: seq<Store>)
    requires IsStore(store) && store.Loaded? && k < |store.entries|
    requires var id := store.entries[k].id;
             && EntryEffect(db.jobs, SyncStore(db, store, now).jobs, store.entries[k], store, now)
             && forall m :: 0 <= m < |others| ==>
                  && Apart(store, others[m])
                  && (others[m].Loaded? && id in db.jobs ==> !IsRowOf(db.jobs[id], others[m]))
    ensures var id, jobs := store.entries[k].id, SyncStore(db, store, now).jobs;
            forall m :: 0 <= m < |others| ==>
              && (others[m].Loaded? ==> id !in AllIds(others[m].entries))
              && (id in jobs ==> IsForeign(jobs[id], id, others[m]))
  {
    var e := store.entries[k];
    assert e.id in AllIds(store.entries);
    var jobs := SyncStore(db, store, now).jobs;
    forall m | 0 <= m < |others| && others[m].Loaded?
      ensures e.id !in AllIds(others[m].entries) && (e.id in jobs ==> !IsRowOf(jobs[e.id], others[m]))
    {
      if e.Import? && e.ValidAt(now) {
        ImportedSource(db.jobs, e, now, store, others[m]);
      }
    }
  }

  /** An upserted row carries its store's source. */
  lemma ImportedSource(jobs: map<JobId, Job>, e: Entry, now: Time, store: Store, other: Store)
    requires e.Import? && IsHermesPayload(e.payload) && store.Loaded? && e.payload.source == Text(store.source)
    requires other.Loaded? && other.source != store.source
    ensures !IsRowOf(UpsertRow(jobs, e, now), other)
  {
  }

  // ---------------------------------------------------------------------
  // Rows that follow their source.
  // ---------------------------------------------------------------------

  /** The row has the source's definition, and no news from the source for its payload. */
  predicate Tracks(row: Job, e: Entry)
    requires e.Import?
  {
    && row.expression == e.expression
    && Definition(row.payload) == Definition(e.payload)
    && MergePayload(row.payload, e.payload) == row.payload
  }

  /** The source has the job on and the row has it off, or the other way round, and the row is
      neither a finished one-shot nor at its repeat limit. */
  predicate Overridden(row: Job, e: Entry)
    requires e.Import?
  {
    && row.enabled != e.enabled
    && !FinishedOneShot(row, Incoming(e, 0)) && !ExhaustedRepeat(row, Incoming(e, 0))
  }

  /** The row after its source has been merged in again. */
  function Resynced(row: Job, e: Entry, now: Time): Job
    requires e.Import?
  {
    if Overridden(row, e)
    then row.(enabled := e.enabled, nextRunAt := Incoming(e, now).nextRunAt, updatedAt := now)
    else row.(updatedAt := now)
  }

  lemma MergeTracked(row: Job, e: Entry, now: Time)
    requires e.Import? && Tracks(row, e)
    ensures Merge(row, Incoming(e, now)) == Resynced(row, e, now)
  {
  }

  /** After an upsert the row follows its source, and is not overridden by it again. */
  lemma UpsertTracks(jobs: map<JobId, Job>, e: Entry, now: Time)
    requires e.Import? && IsHermesPayload(e.payload)
    ensures var row := UpsertRow(jobs, e, now);
            row.authority == HermesMirror ==> Tracks(row, e) && !Overridden(row, e)
  {
    if e.id !in jobs {
      assert MergePayload(e.payload, e.payload) == e.payload;
    } else {
      PayloadMergeSettles(jobs[e.id].payload, e.payload);
    }
  }

  // ---------------------------------------------------------------------
  // Settled tables.
  // ---------------------------------------------------------------------

  ghost predicate EntrySettled(jobs: map<JobId, Job>, e: Entry, since: Time) {
    e.Import? && e.ValidAt(since) ==>
      e.id in jobs && (jobs[e.id].authority == HermesMirror ==> Tracks(jobs[e.id], e))
  }

  ghost predicate EntryFixed(jobs: map<JobId, Job>, e: Entry, since: Time) {
    && EntrySettled(jobs, e, since)
    && (e.Import? && e.ValidAt(since) && jobs[e.id].authority == HermesMirror ==> !Overridden(jobs[e.id], e))
  }

  ghost predicate NothingStale(jobs: map<JobId, Job>, store: Store, since: Time) {
    store.Loaded? ==> forall id :: id in jobs ==> !Stale(jobs[id], id, store, since)
  }

  /** Every job of the store that was valid at `since` has a row that follows it, and no row
      of the store lacks such a job. */
  ghost predicate StoreSettled(jobs: map<JobId, Job>, store: Store, since: Time) {
    && NothingStale(jobs, store, since)
    && (store.Loaded? ==> forall k :: 0 <= k < |store.entries| ==> EntrySettled(jobs, store.entries[k], since))
  }

  /** Moreover no row is overridden. */
  ghost predicate StoreFixed(jobs: map<JobId, Job>, store: Store, since: Time) {
    && NothingStale(jobs, store, since)
    && (store.Loaded? ==> forall k :: 0 <= k < |store.entries| ==> EntryFixed(jobs, store.entries[k], since))
  }

  ghost predicate AllSettled(jobs: map<JobId, Job>, stores: seq<Store>, since: Time) {
    forall i :: 0 <= i < |stores| ==> StoreSettled(jobs, stores[i], since)
  }

  ghost predicate AllFixed(jobs: map<JobId, Job>, stores: seq<Store>, since: Time) {
    forall i :: 0 <= i < |stores| ==> StoreFixed(jobs, stores[i], since)
  }

  lemma FixedIsSettled(jobs: map<JobId, Job>, stores: seq<Store>, since: Time)
    requires AllFixed(jobs, stores, since)
    ensures AllSettled(jobs, stores, since)
  {
    forall i | 0 <= i < |stores| ensures StoreSettled(jobs, stores[i], since) {
      assert StoreFixed(jobs, stores[i], since);
    }
  }

  /** One synchronisation fixes its store, whatever the table was. */
  lemma SyncFixes(db: Db, store: Store, now: Time)
    requires IsStore(store)
    ensures StoreFixed(SyncStore(db, store, now).jobs, store, now)
  {
    if store.Loaded? {
      var jobs' := SyncStore(db, store, now).jobs;
      forall k | 0 <= k < |store.entries| ensures EntryFixed(jobs', store.entries[k], now) {
        var e := store.entries[k];
        OwnRowEffect(db, store, now, k);
        if e.Import? {
          UpsertTracks(db.jobs, e, now);
        }
      }
    }
  }

  /** Synchronising one store leaves every other store fixed. */
  lemma OtherStoreStaysFixed(db: Db, a: Store, b: Store, now: Time)
    requires IsStore(a) && IsStore(b) && Apart(a, b) && StoreFixed(db.jobs, a, now)
    ensures StoreFixed(SyncStore(db, b, now).jobs, a, now)
  {
    if a.Loaded? && b.Loaded? {
      var jobs' := SyncStore(db, b, now).jobs;
      forall k | 0 <= k < |a.entries| ensures EntryFixed(jobs', a.entries[k], now) {
        var e := a.entries[k];
        assert EntryFixed(db.jobs, e, now) && e.id in AllIds(a.entries);
        if e.Import? && e.ValidAt(now) {
          ForeignRowStays(db, b, now, e.id);
        }
      }
      forall id | id in jobs' ensures !Stale(jobs'[id], id, a, now) {
        NoNewStale(db, a, b, now, id);
      }
    }
  }

  lemma NoNewStale(db: Db, a: Store, b: Store, now: Time, id: JobId)
    requires IsStore(b) && Apart(a, b) && a.Loaded? && b.Loaded? && NothingStale(db.jobs, a, now)
    requires id in SyncStore(db, b, now).jobs
    ensures !Stale(SyncStore(db, b, now).jobs[id], id, a, now)
  {
    if id in AllIds(b.entries) {
      var k :| 0 <= k < |b.entries| && b.entries[k].id == id;
      OwnRowEffect(db, b, now, k);
      if b.entries[k].Import? && b.entries[k].ValidAt(now) {
        ImportedSource(db.jobs, b.entries[k], now, b, a);
      }
    } else {
      UpsertAllOutside(db.jobs, b.entries, now, id);
    }
  }

  /** After a synchronisation every store is fixed: every mirrored row follows a valid source
      job, and no row is left without one. */
  lemma {:induction false} SyncFixesAll(db: Db, stores: seq<Store>, now: Time)
    requires AreStores(stores)
    ensures AllFixed(SyncAt(db, stores, now).jobs, stores, now)
  {
    if stores != [] {
      var n := |stores| - 1;
      var init := stores[..n];
      SyncFixesAll(db, init, now);
      var mid := SyncAt(db, init, now);
      SyncFixes(mid, stores[n], now);
      forall i | 0 <= i < n ensures StoreFixed(SyncStore(mid, stores[n], now).jobs, stores[i], now) {
        assert init[i] == stores[i];
        OtherStoreStaysFixed(mid, stores[i], stores[n], now);
      }
    }
  }

  // ---------------------------------------------------------------------
  // A synchronisation of settled tables.
  // ---------------------------------------------------------------------

  /** The row was mirrored from a recurring job whose schedule has run out by `now`. */
  ghost predicate Expires(jobs: map<JobId, Job>, stores: seq<Store>, id: JobId, now: Time) {
    id in jobs && exists i: nat, k: nat :: IsEntry(stores, i, k, id) && ExpiresAt(jobs[id], stores[i], stores[i].entries[k], now)
  }

  predicate ExpiresAt(row: Job, store: Store, e: Entry, now: Time)
    requires store.Loaded?
  {
    IsRowOf(row, store) && !IsOneShot(e.expression) && e.computedNext(now).None?
  }

  /** What a synchronisation does to row `id`: it is deleted if and only if its schedule has run
      out, reset to the source's switch and next run if and only if it is overridden, and
      otherwise at most restamped. No row appears. */
  ghost predicate RowEffect(before: map<JobId, Job>, after: map<JobId, Job>, stores: seq<Store>, id: JobId, now: Time) {
    && (id in after <==> id in before && !Expires(before, stores, id, now))
    && (id in after ==> (SameRow(after[id], before[id]) <==> !IsOverridden(before, stores, id, now)))
    && (id in after ==> forall i: nat, k: nat ::
          IsEntry(stores, i, k, id) && IsOverriddenBy(before[id], stores[i].entries[k], now) ==>
          after[id] == Resynced(before[id], stores[i].entries[k], now))
  }

  ghost predicate IsOverridden(jobs: map<JobId, Job>, stores: seq<Store>, id: JobId, now: Time) {
    id in jobs && exists i: nat, k: nat :: IsEntry(stores, i, k, id) && IsOverriddenBy(jobs[id], stores[i].entries[k], now)
  }

  predicate IsOverriddenBy(row: Job, e: Entry, now: Time) {
    e.Import? && e.ValidAt(now) && row.authority == HermesMirror && Overridden(row, e)
  }

  lemma EntryIsUnique(stores: seq<Store>, i: nat, k: nat, i': nat, k': nat, id: JobId)
    requires AreStores(stores) && IsEntry(stores, i, k, id) && IsEntry(stores, i', k', id)
    ensures i == i' && k == k'
  {
    assert id in AllIds(stores[i].entries) && id in AllIds(stores[i'].entries);
  }

  lemma SettledIsHomed(jobs: map<JobId, Job>, stores: seq<Store>, since: Time)
    requires AllSettled(jobs, stores, since)
    ensures Homed(jobs, stores)
  {
    forall i, id | 0 <= i < |stores| && stores[i].Loaded? && id in jobs && IsRowOf(jobs[id], stores[i])
      ensures id in AllIds(stores[i].entries)
    {
      assert StoreSettled(jobs, stores[i], since);
      assert !Stale(jobs[id], id, stores[i], since);
    }
  }

  /** A listed job. */
  lemma SettledEntrySync(db: Db, stores: seq<Store>, since: Time, now: Time, i: nat, k: nat, id: JobId)
    requires AreStores(stores) && AllSettled(db.jobs, stores, since) && since <= now && IsEntry(stores, i, k, id)
    ensures RowEffect(db.jobs, SyncAt(db, stores, now).jobs, stores, id, now)
  {
    var e, jobs, jobs' := stores[i].entries[k], db.jobs, SyncAt(db, stores, now).jobs;
    SettledIsHomed(jobs, stores, since);
    assert id in AllIds(stores[i].entries);
    forall m | 0 <= m < |stores| && m != i && stores[m].Loaded? && id in jobs ensures !IsRowOf(jobs[id], stores[m]) {
      assert Apart(stores[i], stores[m]);
    }
    SyncEntry(db, stores, now, i, k, id);
    assert StoreSettled(jobs, stores[i], since) && EntrySettled(jobs, e, since);
    assert IsEntryOf(e, stores[i].source);
    assert e.ValidAt(now) ==> e.ValidAt(since);
    forall i': nat, k': nat | IsEntry(stores, i', k', id) ensures i' == i && k' == k {
      EntryIsUnique(stores, i, k, i', k', id);
    }
    if id in jobs {
      assert ExpiresAt(jobs[id], stores[i], e, now) <==> Expires(jobs, stores, id, now);
      assert IsOverriddenBy(jobs[id], e, now) <==> IsOverridden(jobs, stores, id, now);
      if e.Import? && e.ValidAt(now) && jobs[id].authority == HermesMirror {
        MergeTracked(jobs[id], e, now);
      }
    }
  }

  /** Any row. */
  lemma SettledRowSync(db: Db, stores: seq<Store>, since: Time, now: Time, id: JobId)
    requires AreStores(stores) && AllSettled(db.jobs, stores, since) && since <= now
    ensures RowEffect(db.jobs, SyncAt(db, stores, now).jobs, stores, id, now)
  {
    if i: nat, k: nat :| IsEntry(stores, i, k, id) {
      SettledEntrySync(db, stores, since, now, i, k, id);
    } else {
      SettledIsHomed(db.jobs, stores, since);
      forall i | 0 <= i < |stores| && stores[i].Loaded? ensures id !in AllIds(stores[i].entries) {
        if id in AllIds(stores[i].entries) {
          var k: nat :| k < |stores[i].entries| && stores[i].entries[k].id == id;
          assert IsEntry(stores, i, k, id);
        }
      }
      ForeignRowStaysAll(db, stores, now, id);
    }
  }

  /** Runs go exactly with their jobs. */
  ghost predicate RunsFollow(db: Db, db': Db) {
    forall r :: (r in db'.runs <==> r in db.runs && (db.runs[r].job in db.jobs ==> db.runs[r].job in db'.jobs))
                && (r in db'.runs ==> db'.runs[r] == db.runs[r])
  }

  lemma ImportedIsKept(db: Db, store: Store, now: Time, id: JobId)
    requires IsStore(store) && store.Loaded? && id !in db.jobs && id in UpsertAll(db.jobs, store.entries, now)
    ensures id in SyncStore(db, store, now).jobs
  {
    if k: nat :| k < |store.entries| && store.entries[k].Import? && store.entries[k].ValidAt(now) && store.entries[k].id == id {
      OwnRowEffect(db, store, now, k);
    } else {
      UpsertAllOutside(db.jobs, store.entries, now, id);
    }
  }

  lemma {:induction false} UpsertAllKeeps(jobs: map<JobId, Job>, entries: seq<Entry>, now: Time)
    ensures jobs.Keys <= UpsertAll(jobs, entries, now).Keys
  {
    if entries != [] {
      UpsertAllKeeps(jobs, entries[..|entries| - 1], now);
    }
  }

  lemma {:induction false} SettledRunsSync(db: Db, stores: seq<Store>, since: Time, now: Time)
    requires AreStores(stores) && AllSettled(db.jobs, stores, since) && since <= now
    ensures RunsFollow(db, SyncAt(db, stores, now))
  {
    if stores != [] {
      var n := |stores| - 1;
      var init := stores[..n];
      assert forall i :: 0 <= i < n ==> init[i] == stores[i];
      SettledRunsSync(db, init, since, now);
      var mid, after := SyncAt(db, init, now), SyncAt(db, stores, now);
      if stores[n].Loaded? {
        UpsertAllKeeps(mid.jobs, stores[n].entries, now);
        forall r | r in db.runs
          ensures r in after.runs <==> (db.runs[r].job in db.jobs ==> db.runs[r].job in after.jobs)
        {
          RunFollows(db, stores, since, now, db.runs[r].job);
        }
      }
    }
  }

  /** The last store brings no job back that an earlier one deleted, nor a new one. */
  lemma RunFollows(db: Db, stores: seq<Store>, since: Time, now: Time, j: JobId)
    requires stores != [] && AreStores(stores) && AllSettled(db.jobs, stores, since) && since <= now
    requires stores[|stores| - 1].Loaded?
    ensures var n := |stores| - 1;
            var mid := SyncAt(db, stores[..n], now);
            && (j in mid.jobs ==> j in db.jobs)
            && (j !in mid.jobs ==> j !in SyncAt(db, stores, now).jobs && j !in UpsertAll(mid.jobs, stores[n].entries, now))
  {
    var n := |stores| - 1;
    var init := stores[..n];
    var mid := SyncAt(db, init, now);
    assert forall i :: 0 <= i < n ==> init[i] == stores[i];
    SettledRowSync(db, init, since, now, j);
    SettledRowSync(db, stores, since, now, j);
    if Expires(db.jobs, init, j, now) {
      var i: nat, k: nat :| IsEntry(init, i, k, j) && ExpiresAt(db.jobs[j], init[i], init[i].entries[k], now);
      assert IsEntry(stores, i, k, j) && ExpiresAt(db.jobs[j], stores[i], stores[i].entries[k], now);
    }
    if j !in mid.jobs && j in UpsertAll(mid.jobs, stores[n].entries, now) {
      ImportedIsKept(mid, stores[n], now, j);
    }
  }

  // ---------------------------------------------------------------------
  // Any number of synchronisations.
  // ---------------------------------------------------------------------

  /** Synchronise at each of the given instants in turn. */
  function SyncRepeatedly(db: Db, stores: seq<Store>, times: seq<Time>): Db {
    if times == [] then db
    else SyncAt(SyncRepeatedly(db, stores, times[..|times| - 1]), stores, times[|times| - 1])
  }

  function LastOf(first: Time, times: seq<Time>): Time {
    if times == [] then first else times[|times| - 1]
  }

  ghost predicate IsClock(first: Time, times: seq<Time>) {
    && (forall i :: 0 <= i < |times| ==> first <= times[i])
    && (forall i, j :: 0 <= i < j < |times| ==> times[i] <= times[j])
  }

  lemma NothingExpiredYet(jobs: map<JobId, Job>, stores: seq<Store>, since: Time, id: JobId)
    requires AreStores(stores) && AllSettled(jobs, stores, since)
    ensures !Expires(jobs, stores, id, since)
  {
    forall i: nat, k: nat | id in jobs && IsEntry(stores, i, k, id)
      ensures !ExpiresAt(jobs[id], stores[i], stores[i].entries[k], since)
    {
      assert StoreSettled(jobs, stores[i], since);
      if !stores[i].entries[k].ValidAt(since) {
        NotLive(stores[i].entries, since, k);
      }
    }
  }

  lemma NothingOverridden(jobs: map<JobId, Job>, stores: seq<Store>, since: Time, now: Time, id: JobId)
    requires AreStores(stores) && AllFixed(jobs, stores, since) && since <= now
    ensures !IsOverridden(jobs, stores, id, now)
  {
    forall i: nat, k: nat | id in jobs && IsEntry(stores, i, k, id)
      ensures !IsOverriddenBy(jobs[id], stores[i].entries[k], now)
    {
      assert StoreFixed(jobs, stores[i], since) && EntryFixed(jobs, stores[i].entries[k], since);
      assert IsEntryOf(stores[i].entries[k], stores[i].source);
    }
  }

  /** Expiry only depends on whose row it is, and never ends. */
  lemma ExpiryLasts(jobs: map<JobId, Job>, jobs': map<JobId, Job>, stores: seq<Store>, id: JobId, t: Time, t': Time)
    requires AreStores(stores) && id in jobs && id in jobs' && SameRow(jobs'[id], jobs[id]) && t <= t'
    requires Expires(jobs, stores, id, t)
    ensures Expires(jobs', stores, id, t')
  {
    var i: nat, k: nat :| IsEntry(stores, i, k, id) && ExpiresAt(jobs[id], stores[i], stores[i].entries[k], t);
    assert IsEntryOf(stores[i].entries[k], stores[i].source);
    assert !stores[i].entries[k].ValidAt(t) && !stores[i].entries[k].ValidAt(t');
    assert ExpiresAt(jobs'[id], stores[i], stores[i].entries[k], t');
  }

  lemma {:induction false} RepeatedRow(db: Db, stores: seq<Store>, first: Time, times: seq<Time>, id: JobId)
    requires AreStores(stores) && IsClock(first, times)
    ensures var once := SyncAt(db, stores, first).jobs;
            var again := SyncRepeatedly(SyncAt(db, stores, first), stores, times).jobs;
            && AllFixed(again, stores, LastOf(first, times))
            && (id in again <==> id in once && !Expires(once, stores, id, LastOf(first, times)))
            && (id in again ==> SameRow(again[id], once[id]))
    decreases |times|
  {
    var once := SyncAt(db, stores, first);
    SyncFixesAll(db, stores, first);
    FixedIsSettled(once.jobs, stores, first);
    if times == [] {
      NothingExpiredYet(once.jobs, stores, first, id);
    } else {
      var n := |times| - 1;
      var since, now := LastOf(first, times[..n]), times[n];
      var before := SyncRepeatedly(once, stores, times[..n]);
      RepeatedRow(db, stores, first, times[..n], id);
      FixedIsSettled(before.jobs, stores, since);
      NothingOverridden(before.jobs, stores, since, now, id);
      SettledRowSync(before, stores, since, now, id);
      SyncFixesAll(before, stores, now);
      if id in before.jobs {
        if Expires(once.jobs, stores, id, now) { ExpiryLasts(once.jobs, before.jobs, stores, id, now, now); }
        if Expires(before.jobs, stores, id, now) { ExpiryLasts(before.jobs, once.jobs, stores, id, now, now); }
      } else if id in once.jobs {
        ExpiryLasts(once.jobs, once.jobs, stores, id, since, now);
      }
    }
  }

  lemma {:induction false} RepeatedRuns(db: Db, stores: seq<Store>, first: Time, times: seq<Time>)
    requires AreStores(stores) && IsClock(first, times)
    ensures RunsFollow(SyncAt(db, stores, first), SyncRepeatedly(SyncAt(db, stores, first), stores, times))
    decreases |times|
  {
    if times != [] {
      var n := |times| - 1;
      var once := SyncAt(db, stores, first);
      var before := SyncRepeatedly(once, stores, times[..n]);
      RepeatedRuns(db, stores, first, times[..n]);
      forall id ensures id in SyncRepeatedly(once, stores, times).jobs ==> id in before.jobs
                ensures id in before.jobs ==> id in once.jobs
      {
        RepeatedRow(db, stores, first, times[..n], id);
        FixedIsSettled(before.jobs, stores, LastOf(first, times[..n]));
        SettledRowSync(before, stores, LastOf(first, times[..n]), times[n], id);
      }
      RepeatedRow(db, stores, first, times[..n], "");
      FixedIsSettled(before.jobs, stores, LastOf(first, times[..n]));
      SettledRunsSync(before, stores, LastOf(first, times[..n]), times[n]);
    }
  }

  /** The same table apart from `updated_at`. */
  ghost predicate SameTable(a: map<JobId, Job>, b: map<JobId, Job>) {
    a.Keys == b.Keys && forall id :: id in a ==> SameRow(a[id], b[id])
  }

  /** Resynchronising unchanged stores any number of times as the clock goes on deletes the rows
      whose schedules have run out by the last time, with their runs, and does nothing else but
      restamp: it equals synchronising once if and only if no schedule has run out. */
  lemma SyncIsIdempotentIff(db: Db, stores: seq<Store>, first: Time, times: seq<Time>)
    requires AreStores(stores) && IsClock(first, times)
    ensures var once := SyncAt(db, stores, first);
            var again := SyncRepeatedly(once, stores, times);
            var last := LastOf(first, times);
            && RunsFollow(once, again)
            && (forall id :: id in again.jobs <==> id in once.jobs && !Expires(once.jobs, stores, id, last))
            && (forall id :: id in again.jobs ==> SameRow(again.jobs[id], once.jobs[id]))
            && (SameTable(again.jobs, once.jobs) <==> forall id :: !Expires(once.jobs, stores, id, last))
  {
    var once := SyncAt(db, stores, first);
    var again := SyncRepeatedly(once, stores, times);
    var last := LastOf(first, times);
    RepeatedRuns(db, stores, first, times);
    forall id
      ensures id in again.jobs <==> id in once.jobs && !Expires(once.jobs, stores, id, last)
      ensures id in again.jobs ==> SameRow(again.jobs[id], once.jobs[id])
    {
      RepeatedRow(db, stores, first, times, id);
    }
    if id :| Expires(once.jobs, stores, id, last) {
      assert id in once.jobs && id !in again.jobs;
    }
  }

  // ---------------------------------------------------------------------
  // Where it fails.
  // ---------------------------------------------------------------------

  /** A recurring job with one instant left, at 10. */
  function Ending(): Entry {
    Import("hermes:p:a", "0 0 0 1 1 * 2030",
           Object(Repeat(Null, Number(0)), Missing, Missing, Null, Null, Null, Null, Text("jobs.json"), ""),
           true, None, (t: Time) => if t < 10 then Some(10) else None, None)
  }

  /** Its row is there after a synchronisation at 0 and gone after one at 20. */
  lemma ExhaustedScheduleIsDeleted()
    ensures var stores := [Loaded("jobs.json", [Ending()])];
            var once := SyncAt(Db(map[], map[]), stores, 0);
            && AreStores(stores)
            && Ending().id in once.jobs && once.jobs[Ending().id].nextRunAt == Some(10)
            && Ending().id !in SyncAt(once, stores, 20).jobs
  {
    var e := Ending();
    var store := Loaded("jobs.json", [e]);
    var stores, db := [store], Db(map[], map[]);
    assert IsEntryOf(store.entries[0], store.source);
    assert stores[..0] == [];
    var once := SyncStore(db, store, 0);
    assert SyncAt(db, stores, 0) == once && SyncAt(once, stores, 20) == SyncStore(once, store, 20);
    assert e.expression[0] != "once:"[0];
    assert e.ValidAt(0) && !e.ValidAt(20);
    OwnRowEffect(db, store, 0, 0);
    OwnRowEffect(once, store, 20, 0);
  }

  /** If a store lists an id twice with different definitions, every synchronisation resets the
      next run to the second one's, whatever the scheduler had advanced it to. */
  lemma DuplicateIdsResetNextRun(jobs: map<JobId, Job>, e1: Entry, e2: Entry, now: Time)
    requires e1.Import? && e2.Import? && e1.id == e2.id && e1.ValidAt(now) && e2.ValidAt(now)
    requires IsHermesPayload(e1.payload) && Definition(e1.payload) != Definition(e2.payload)
    requires e1.id in jobs && jobs[e1.id].authority == HermesMirror && jobs[e1.id].nextRunAt.Some?
    requires Incoming(e1, now).nextRunAt.Some?
    ensures e2.id in UpsertAll(jobs, [e1, e2], now)
    ensures UpsertAll(jobs, [e1, e2], now)[e2.id].nextRunAt == Incoming(e2, now).nextRunAt
  {
    var both := [e1, e2];
    assert both[..1] == [e1] && [e1][..0] == [];
    assert UpsertAll(jobs, [e1], now) == UpsertEntry(jobs, e1, now);
    assert UpsertAll(jobs, both, now) == UpsertEntry(UpsertAll(jobs, [e1], now), e2, now);
    PayloadMergeSettles(jobs[e1.id].payload, e1.payload);
  }
}
