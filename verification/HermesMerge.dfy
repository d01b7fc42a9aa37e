/** The upsert that mirrors one Hermes job into the scheduler's table. */
module HermesMerge {
  import opened Common
  import opened CronTypes

  /** `$.repeat.completed` of a payload. */
  function RepeatCompleted(p: Payload): Field {
    if p.Object? && p.repeat.Repeat? then p.repeat.completed else Missing
  }

  /** `$.repeat.times` of a payload. */
  function RepeatTimes(p: Payload): Field {
    if p.Object? && p.repeat.Repeat? then p.repeat.times else Missing
  }

  /** The stored repeat counter as SQLite reads it. */
  function Counter(p: Payload): nat {
    RepeatCompleted(p).AsInteger()
  }

  function SetRepeatCompleted(p: Payload, n: U64): Payload {
    if !p.Object? then p
    else match p.repeat
      case NoRepeat => p.(repeat := Repeat(Missing, Number(n)))
      case NotAnObject(_) => p
      case Repeat(times, _) => p.(repeat := Repeat(times, Number(n)))
  }

  /** `json_remove` of the members that executing a job changes. */
  function Definition(p: Payload): Payload {
    if !p.Object? then p
    else
      p.(repeat := if p.repeat.Repeat? then p.repeat.(completed := Missing) else p.repeat,
         lastStatus := Missing, lastRunAt := Missing, lastError := Missing, lastDeliveryError := Missing)
  }

  /** The larger counter wins. */
  function KeepCounter(row: Payload, incoming: Payload): Payload {
    if RepeatCompleted(row).Extract() != Null && Counter(row) > Counter(incoming)
    then SetRepeatCompleted(incoming, Counter(row))
    else incoming
  }

  function KeepLast(row: Payload, incoming: Payload): Payload
    requires row.Object?
  {
    if !incoming.Object? then incoming
    else
      incoming.(lastStatus := row.lastStatus.Extract(),
                lastRunAt := row.lastRunAt.Extract(),
                lastError := row.lastError.Extract(),
                lastDeliveryError := row.lastDeliveryError.Extract())
  }

  function MergePayload(row: Payload, incoming: Payload): Payload {
    if row.Object? && row.lastStatus.Extract() != Null
    then KeepLast(row, KeepCounter(row, incoming))
    else KeepCounter(row, incoming)
  }

  predicate FinishedOneShot(row: Job, incoming: Job) {
    IsOneShot(row.expression) && row.nextRunAt.None? && row.expression == incoming.expression
  }

  predicate ExhaustedRepeat(row: Job, incoming: Job) {
    var times := RepeatTimes(incoming.payload);
    times.Extract() != Null && times.AsInteger() > 0 && Counter(row.payload) >= times.AsInteger() && row.nextRunAt.None?
  }

  predicate Redefined(row: Job, incoming: Job) {
    || row.expression != incoming.expression
    || Definition(row.payload) != Definition(incoming.payload)
    || row.enabled != incoming.enabled
  }

  /** The update branch of the upsert; the row's creation time and authority stay. */
  function Merge(row: Job, incoming: Job): Job {
    var settled := FinishedOneShot(row, incoming) || ExhaustedRepeat(row, incoming);
    row.(
      expression := incoming.expression,
      payload := MergePayload(row.payload, incoming.payload),
      enabled := if settled then row.enabled else incoming.enabled,
      nextRunAt := if settled then None
                   else if Redefined(row, incoming) then incoming.nextRunAt
                   else row.nextRunAt,
      updatedAt := incoming.updatedAt)
  }

  /** Inserts, merges into a mirrored row, or leaves a row with another authority alone. */
  function Upsert(jobs: map<JobId, Job>, id: JobId, incoming: Job): map<JobId, Job> {
    if id !in jobs then jobs[id := incoming]
    else if jobs[id].authority == HermesMirror then jobs[id := Merge(jobs[id], incoming)]
    else jobs
  }

  // ---------------------------------------------------------------------
  // What a synchronisation supplies.
  // ---------------------------------------------------------------------

  /** Serialised Hermes jobs always carry a repeat object with a number, and all four
      result members as a string or null. */
  predicate IsHermesPayload(p: Payload) {
    && p.Object?
    && p.repeat.Repeat?
    && p.repeat.completed.Number?
    && (p.repeat.times.Number? || p.repeat.times.Null?)
    && !p.lastStatus.Missing? && !p.lastRunAt.Missing? && !p.lastError.Missing? && !p.lastDeliveryError.Missing?
  }

  predicate IsHermesRow(row: Job) {
    row.authority == HermesMirror && IsHermesPayload(row.payload)
  }

  /** The same source job seen at another instant: its own next run may have been computed
      anew, and its timestamps differ. */
  predicate SameSource(a: Job, b: Job) {
    a.expression == b.expression && a.payload == b.payload && a.enabled == b.enabled && a.authority == b.authority
  }

  /** Equal apart from `updated_at`. */
  predicate SameRow(a: Job, b: Job) {
    a == b.(updatedAt := a.updatedAt)
  }

  // ---------------------------------------------------------------------
  // Algebra of the merge.
  // ---------------------------------------------------------------------

  lemma PayloadMergeSettles(row: Payload, incoming: Payload)
    requires IsHermesPayload(incoming)
    ensures var p := MergePayload(row, incoming);
            && MergePayload(p, incoming) == p
            && Definition(p) == Definition(incoming)
            && Counter(p) == Max(Counter(row), Counter(incoming))
            && IsHermesPayload(p)
  {
  }

  /** Merging the same source again, at any later instant, changes nothing but the stamp. */
  lemma MergeIsIdempotent(row: Job, first: Job, again: Job)
    requires IsHermesPayload(first.payload) && SameSource(first, again)
    ensures SameRow(Merge(Merge(row, first), again), Merge(row, first))
  {
    PayloadMergeSettles(row.payload, first.payload);
  }

  lemma InsertIsIdempotent(first: Job, again: Job)
    requires IsHermesPayload(first.payload) && SameSource(first, again)
    ensures SameRow(Merge(first, again), first)
  {
    var p := first.payload;
    assert MergePayload(p, p) == p;
  }
}
