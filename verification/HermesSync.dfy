/** Synchronising all Hermes stores into the scheduler's table. */
module HermesSync {
  import opened Common
  import opened CronTypes
  import opened CronStatements
  import opened HermesMerge

  /** A source job that passes every check that does not depend on the instant. `Skipped` is one
      whose own next run does not parse: it keeps its row alive without updating it.
      `computedNext` evaluates the schedule in the job's own zone. */
  datatype Entry =
    | Skipped(
        id: JobId,
        expression: string,
        computedNext: Time -> Option<Time>)
    | Import(
        id: JobId,
        expression: string,
        payload: Payload,
        enabled: bool,
        ownNext: Option<Time>,
        computedNext: Time -> Option<Time>,
        created: Option<Time>)
  {
    /** Validation refuses a recurring job that has no next instant. */
    predicate ValidAt(now: Time) {
      IsOneShot(expression) || computedNext(now).Some?
    }
  }

  /** A store that could not be loaded contributes nothing and deletes nothing. */
  datatype Store = Unreadable | Loaded(source: string, entries: seq<Entry>)

  function Incoming(e: Entry, now: Time): Job
    requires e.Import?
  {
    Job(e.expression, e.payload, e.enabled,
        if e.ownNext.Some? then e.ownNext else e.computedNext(now),
        if e.created.Some? then e.created.value else now,
        now, HermesMirror)
  }

  function UpsertEntry(jobs: map<JobId, Job>, e: Entry, now: Time): map<JobId, Job> {
    if e.Import? && e.ValidAt(now) then Upsert(jobs, e.id, Incoming(e, now)) else jobs
  }

  function UpsertAll(jobs: map<JobId, Job>, entries: seq<Entry>, now: Time): map<JobId, Job> {
    if entries == [] then jobs
    else UpsertEntry(UpsertAll(jobs, entries[..|entries| - 1], now), entries[|entries| - 1], now)
  }

  /** Rows that importing the entries in order inserts or updates. */
  function CountImported(jobs: map<JobId, Job>, entries: seq<Entry>, now: Time): nat {
    if entries == [] then 0
    else
      var init, e := entries[..|entries| - 1], entries[|entries| - 1];
      var before := UpsertAll(jobs, init, now);
      CountImported(jobs, init, now)
      + if e.Import? && e.ValidAt(now) && (e.id !in before || before[e.id].authority == HermesMirror) then 1 else 0
  }

  function LiveIds(entries: seq<Entry>, now: Time): set<JobId> {
    set i | 0 <= i < |entries| && entries[i].ValidAt(now) :: entries[i].id
  }

  /** The row was mirrored from this store. */
  predicate IsRowOf(row: Job, store: Store)
    requires store.Loaded?
  {
    row.authority == HermesMirror && row.payload.Object? && row.payload.source == Text(store.source)
  }

  predicate Stale(row: Job, id: JobId, store: Store, now: Time)
    requires store.Loaded?
  {
    IsRowOf(row, store) && id !in LiveIds(store.entries, now)
  }

  function SyncStore(db: Db, store: Store, now: Time): Db {
    if store.Unreadable? then db
    else
      var jobs := UpsertAll(db.jobs, store.entries, now);
      var kept := map id | id in jobs && !Stale(jobs[id], id, store, now) :: jobs[id];
      Db(kept, map r | r in db.runs && !(db.runs[r].job in jobs && db.runs[r].job !in kept) :: db.runs[r])
  }

  function SyncAt(db: Db, stores: seq<Store>, now: Time): Db {
    if stores == [] then db
    else SyncStore(SyncAt(db, stores[..|stores| - 1], now), stores[|stores| - 1], now)
  }

  function CountSynced(db: Db, stores: seq<Store>, now: Time): nat {
    if stores == [] then 0
    else
      var init, store := stores[..|stores| - 1], stores[|stores| - 1];
      CountSynced(db, init, now)
      + if store.Loaded? then CountImported(SyncAt(db, init, now).jobs, store.entries, now) else 0
  }

  class Synchronizer {
    var jobs: map<JobId, Job>
    var runs: map<RunId, Run>

    function Tables(): Db
      reads this
    {
      Db(jobs, runs)
    }

    method ImportEntries(entries: seq<Entry>, now: Time) returns (live: set<JobId>, imported: nat)
      modifies this`jobs
      ensures jobs == UpsertAll(old(jobs), entries, now)
      ensures live == LiveIds(entries, now)
      ensures imported == CountImported(old(jobs), entries, now)
    {
      live, imported := {}, 0;
      for i := 0 to |entries|
        invariant jobs == UpsertAll(old(jobs), entries[..i], now)
        invariant live == LiveIds(entries[..i], now)
        invariant imported == CountImported(old(jobs), entries[..i], now)
      {
        assert entries[..i + 1][..i] == entries[..i];
        var e := entries[i];
        if e.ValidAt(now) {
          live := live + {e.id};
          if e.Import? {
            if e.id !in jobs || jobs[e.id].authority == HermesMirror {
              imported := imported + 1;
            }
            jobs := Upsert(jobs, e.id, Incoming(e, now));
          }
        }
      }
      assert entries[..|entries|] == entries;
    }

    method DeleteStale(source: string, live: set<JobId>)
      modifies this
      ensures jobs == map id | id in old(jobs)
                && !(old(jobs)[id].authority == HermesMirror && old(jobs)[id].payload.Object?
                     && old(jobs)[id].payload.source == Text(source) && id !in live) :: old(jobs)[id]
      ensures runs == map r | r in old(runs)
                && !(old(runs)[r].job in old(jobs) && old(runs)[r].job !in jobs) :: old(runs)[r]
    {
      var rows := set id | id in jobs && jobs[id].authority == HermesMirror && jobs[id].payload.Object?
                           && jobs[id].payload.source == Text(source);
      ghost var before := jobs;
      var todo := rows;
      while todo != {}
        invariant todo <= rows
        invariant forall id :: id in jobs <==> id in before && !(id in rows && id !in live && id !in todo)
        invariant forall id :: id in jobs ==> jobs[id] == before[id]
        invariant forall r :: r in runs <==> r in old(runs) && !(old(runs)[r].job in before && old(runs)[r].job !in jobs)
        invariant forall r :: r in runs ==> runs[r] == old(runs)[r]
        decreases todo
      {
        var id :| id in todo;
        todo := todo - {id};
        if id !in live && id in jobs && jobs[id].authority == HermesMirror {
          jobs := jobs - {id};
          runs := map r | r in runs && runs[r].job != id :: runs[r];
        }
      }
    }

    method Sync(stores: seq<Store>, now: Time) returns (imported: nat)
      modifies this
      ensures Tables() == SyncAt(old(Tables()), stores, now)
      ensures imported == CountSynced(old(Tables()), stores, now)
    {
      imported := 0;
      for i := 0 to |stores|
        invariant Tables() == SyncAt(old(Tables()), stores[..i], now)
        invariant imported == CountSynced(old(Tables()), stores[..i], now)
      {
        assert stores[..i + 1][..i] == stores[..i];
        if stores[i].Loaded? {
          ghost var before := Tables();
          var live, n := ImportEntries(stores[i].entries, now);
          imported := imported + n;
          DeleteStale(stores[i].source, live);
          assert Tables() == SyncStore(before, stores[i], now);
        }
      }
      assert stores[..|stores|] == stores;
    }
  }
}
