/** Rows of the scheduler's two tables and the pure decisions taken about them. */
module CronTypes {
  import opened Common

  type JobId = string
  type RunId = string
  type Token = string

  /** Nanoseconds since the epoch. */
  type Time = int

  const MINUTE: Time := 60 * SECOND

  const LEASE_DURATION: Time := 30 * MINUTE
  const STALE_LEASE_SAFETY_NET: Time := 120 * MINUTE
  const ONESHOT_GRACE_DURATION: Time := 120 * SECOND
  const RECENT_LIMIT: nat := 50

  const U64_RANGE: nat := 0x1_0000_0000_0000_0000
  const I64_MAX: nat := 0x7FFF_FFFF_FFFF_FFFF

  type U64 = n: nat | n < U64_RANGE

  // ---------------------------------------------------------------------
  // Job payloads: the JSON fields that the scheduler and the mirror read or write.
  // ---------------------------------------------------------------------

  /** One JSON member: absent, null, an unsigned integer, a string, an instant rendered
      as a string, or any other value. */
  datatype Field = Missing | Null | Number(n: U64) | Text(s: string) | Instant(t: Time) | Other(raw: string) {
    function AsU64(): Option<U64> {
      if Number? then Some(n) else None
    }

    /** What `json_extract` answers: SQL NULL for an absent member and for JSON null. */
    function Extract(): Field {
      if Missing? then Null else this
    }

    /** `CAST(COALESCE(json_extract(..), 0) AS INTEGER)` for integers. */
    function AsInteger(): nat {
      if Number? then (if n <= I64_MAX then n else I64_MAX) else 0
    }
  }

  datatype Repeat =
    | NoRepeat
    | NotAnObject(raw: string)
    | Repeat(times: Field, completed: Field)

  datatype Payload =
    | Malformed(text: string)
    | NonObject(raw: string)
    | Object(
        repeat: Repeat,
        times: Field,
        completed: Field,
        lastStatus: Field,
        lastRunAt: Field,
        lastError: Field,
        lastDeliveryError: Field,
        source: Field,
        body: string)

  const EMPTY_OBJECT: Payload :=
    Object(NoRepeat, Missing, Missing, Missing, Missing, Missing, Missing, Missing, "")

  datatype RepeatInfo = RepeatInfo(times: Option<U64>, completed: U64)

  function OrZero(n: Option<U64>): U64 {
    if n.Some? then n.value else 0
  }

  /** The counter's successor in 64-bit arithmetic. */
  function Next(n: U64): U64 {
    (n + 1) % U64_RANGE
  }

  predicate ShouldDisableAfter(info: RepeatInfo) {
    info.times.Some? && info.times.value > 0 && info.completed >= info.times.value
  }

  function ExtractRepeatInfo(payload: Payload): RepeatInfo {
    match payload
    case Object(Repeat(times, completed), _, _, _, _, _, _, _, _) =>
      RepeatInfo(times.AsU64(), OrZero(completed.AsU64()))
    case Object(NotAnObject(_), _, _, _, _, _, _, _, _) => RepeatInfo(None, 0)
    case Object(NoRepeat, times, completed, _, _, _, _, _, _) =>
      RepeatInfo(times.AsU64(), OrZero(completed.AsU64()))
    case _ => RepeatInfo(None, 0)
  }

  datatype Incremented = Incremented(payload: Payload, info: RepeatInfo)

  function IncrementRepeatCompleted(payload: Payload): Incremented {
    if payload.Object? && payload.repeat.Repeat? then
      var done := Next(OrZero(payload.repeat.completed.AsU64()));
      Incremented(
        payload.(repeat := payload.repeat.(completed := Number(done))),
        RepeatInfo(payload.repeat.times.AsU64(), done))
    else if payload.Object? then
      var done := Next(OrZero(payload.completed.AsU64()));
      var times := payload.times.AsU64();
      Incremented(
        if times.Some? then payload.(completed := Number(done))
        else payload.(repeat := Repeat(Missing, Number(done))),
        RepeatInfo(times, done))
    else
      Incremented(payload, RepeatInfo(None, 1))
  }

  /** `repeat` is usable: absent, an object, or a scalar that the first increment replaces
      by an object counting from zero. */
  predicate CountsRepeats(payload: Payload) {
    && payload.Object?
    && (payload.repeat.NotAnObject? ==> payload.times.AsU64().None? && OrZero(payload.completed.AsU64()) == 0)
  }

  /** Incrementing is seen by the next reader exactly for those payloads. */
  lemma IncrementIsObservedIff(payload: Payload)
    ensures
      (var before, after := ExtractRepeatInfo(payload), IncrementRepeatCompleted(payload);
       ExtractRepeatInfo(after.payload) == RepeatInfo(before.times, Next(before.completed)))
      <==> CountsRepeats(payload)
    ensures CountsRepeats(payload) ==>
              var after := IncrementRepeatCompleted(payload);
              && CountsRepeats(after.payload)
              && after.info == ExtractRepeatInfo(after.payload)
  {
    if payload.Object? && payload.repeat.NotAnObject? {
      assert Next(0) == 1;
      var c := OrZero(payload.completed.AsU64());
      assert Next(c) == 1 <==> c == 0;
    }
  }

  /** A payload with `repeat: 3` beside `times: 5` and `completed: 2` is read as unlimited and
      never run, and still is after an increment, which goes to `completed`. */
  lemma ScalarRepeatIsNotCounted()
    ensures var p := EMPTY_OBJECT.(repeat := NotAnObject("3"), times := Number(5), completed := Number(2));
            && IncrementRepeatCompleted(p).payload == p.(completed := Number(3))
            && ExtractRepeatInfo(p) == ExtractRepeatInfo(IncrementRepeatCompleted(p).payload) == RepeatInfo(None, 0)
  {
    assert Next(2) == 3;
  }

  // ---------------------------------------------------------------------
  // Rows.
  // ---------------------------------------------------------------------

  datatype Authority = HermesMirror | CutoverPending | OmonOwned

  datatype Job = Job(
    expression: string,
    payload: Payload,
    enabled: bool,
    nextRunAt: Option<Time>,
    createdAt: Time,
    updatedAt: Time,
    authority: Authority)

  datatype Status = Running | Succeeded | Failed

  datatype Run = Run(
    job: JobId,
    token: Token,
    leaseExpiresAt: Time,
    startedAt: Time,
    completedAt: Option<Time>,
    status: Status,
    attempt: nat,
    error: Option<string>,
    ownerPid: Option<int>)

  datatype Db = Db(jobs: map<JobId, Job>, runs: map<RunId, Run>)

  predicate IsOneShot(expression: string) {
    "once:" <= expression
  }

  // ---------------------------------------------------------------------
  // Reclaim decision.
  // ---------------------------------------------------------------------

  predicate ShouldReclaimWith(ownerPid: Option<nat>, leaseExpired: bool, leaseAge: Time, alive: nat -> bool) {
    && leaseExpired
    && (|| leaseAge >= STALE_LEASE_SAFETY_NET
        || ownerPid.None?
        || ownerPid.value == 0
        || !alive(ownerPid.value))
  }

  /** The stored process id as the liveness probe gets it: positive, cut to 32 bits. */
  function ProbePid(stored: Option<int>): Option<nat> {
    if stored.Some? && stored.value > 0 then Some(stored.value % 0x1_0000_0000) else None
  }

  predicate Reclaimable(run: Run, now: Time, alive: nat -> bool) {
    && run.status == Running
    && run.leaseExpiresAt <= now
    && ShouldReclaimWith(ProbePid(run.ownerPid), true, now - run.leaseExpiresAt, alive)
  }

  // ---------------------------------------------------------------------
  // Failure backoff.
  // ---------------------------------------------------------------------

  function Pow2(n: nat): nat {
    if n == 0 then 1 else 2 * Pow2(n - 1)
  }

  function Min(a: int, b: int): int {
    if a <= b then a else b
  }

  function Max(a: int, b: int): int {
    if a <= b then b else a
  }

  function FailureBackoffSeconds(failures: nat): nat {
    if failures == 0 then 0
    else
      var seconds := 10 * Pow2(Min(failures - 1, 10));
      if seconds < 10 then 10 else if seconds > 3600 then 3600 else seconds
  }

  /** The schedule's own next instant is a parameter: `None` when it cannot be computed. */
  function NextRunAfterFailure(expression: string, now: Time, scheduled: Option<Time>, failures: nat): Option<Time> {
    if IsOneShot(expression) || scheduled.None? then None
    else Some(Max(scheduled.value, now + FailureBackoffSeconds(failures) * SECOND))
  }

  lemma {:induction false} Pow2Grows(m: nat, n: nat)
    requires m <= n
    ensures Pow2(m) <= Pow2(n)
    decreases n
  {
    if m < n {
      Pow2Grows(m, n - 1);
    }
  }

  /** The doubling is unbounded in the number of failures; the cut at exponent ten and the
      clamp are the same as one ceiling of an hour. */
  lemma BackoffIsCappedDoubling(failures: nat)
    requires failures > 0
    ensures FailureBackoffSeconds(failures) == Min(10 * Pow2(failures - 1), 3600)
  {
    Pow2Grows(0, failures - 1);
    if failures - 1 >= 9 {
      assert Pow2(9) == 512 by {
        assert Pow2(3) == 8;
        assert Pow2(6) == 64;
      }
      Pow2Grows(9, failures - 1);
      Pow2Grows(9, Min(failures - 1, 10));
    }
  }

  /** Reading only the newest rows cannot change the backoff. */
  lemma BackoffIgnoresOlderRows(failures: nat)
    ensures FailureBackoffSeconds(Min(failures, RECENT_LIMIT)) == FailureBackoffSeconds(failures)
  {
  }
}
