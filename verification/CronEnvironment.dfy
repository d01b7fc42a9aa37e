/** Everything else that writes the scheduler's tables: the mirror, housekeeping and operators. */
module CronEnvironment {
  import opened Common
  import opened CronTypes
  import opened HermesMerge

  datatype Outside =
    // a synchronisation is a sequence of these and of deletions
    | Mirror(job: JobId, incoming: Job)
    | Prune(cutoff: Time)
    // operators; `Register` may write any row
    | Pause(job: JobId, now: Time)
    | Resume(job: JobId, now: Time, at: Time)
    | Register(job: JobId, row: Job)
    | SetAuthority(job: JobId, authority: Authority, now: Time)
    | Delete(job: JobId)

  /** The mirror only brings rows of the shape it serialises. */
  predicate IsLawful(o: Outside) {
    o.Mirror? ==> IsHermesRow(o.incoming)
  }

  function UpdateRow(db: Db, id: JobId, row: Job): Db {
    if id in db.jobs then db.(jobs := db.jobs[id := row]) else db
  }

  predicate Prunable(run: Run, cutoff: Time) {
    run.status != Running && (if run.completedAt.Some? then run.completedAt.value else run.startedAt) < cutoff
  }

  /** Deleting a job takes its runs along. */
  function DeleteJob(db: Db, id: JobId): Db {
    Db(db.jobs - {id}, map r | r in db.runs && db.runs[r].job != id :: db.runs[r])
  }

  function Apply(db: Db, o: Outside): Db {
    match o
    case Mirror(job, incoming) => db.(jobs := Upsert(db.jobs, job, incoming))
    case Prune(cutoff) => db.(runs := map r | r in db.runs && !Prunable(db.runs[r], cutoff) :: db.runs[r])
    case Pause(job, now) =>
      if job in db.jobs then UpdateRow(db, job, db.jobs[job].(enabled := false, nextRunAt := None, updatedAt := now)) else db
    case Resume(job, now, at) =>
      if job in db.jobs then UpdateRow(db, job, db.jobs[job].(enabled := true, nextRunAt := Some(at), updatedAt := now)) else db
    case Register(job, row) => db.(jobs := db.jobs[job := row])
    case SetAuthority(job, authority, now) =>
      if job in db.jobs then UpdateRow(db, job, db.jobs[job].(authority := authority, updatedAt := now)) else db
    case Delete(job) => DeleteJob(db, job)
  }

  /** None of them starts, ends or changes a run. Running ones only go with their jobs. */
  lemma OutsideLeavesRuns(db: Db, o: Outside)
    ensures var db' := Apply(db, o);
            && (forall r :: r in db'.runs ==> r in db.runs && db'.runs[r] == db.runs[r])
            && (forall r :: r in db.runs && db.runs[r].status == Running && o != Delete(db.runs[r].job) ==> r in db'.runs)
  {
  }
}
