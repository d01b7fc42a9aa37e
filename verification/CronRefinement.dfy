/** Runs with atomic claims are runs of the interleaved system: every claim taken as a whole is
    some sequence of its own statements, so what holds for all interleavings holds for them. */
module CronRefinement {
  import opened Common
  import opened CronTypes
  import opened CronStatements
  import opened CronScheduler
  import Fine = CronInterleaving
  import Coarse = CronWorld

  /** The same tables, and every claim known to its owner. */
  ghost predicate Matches(w: Coarse.World, s: Fine.System) {
    && s.db == w.db
    && s.holds == map r | r in w.claims :: Fine.Held(w.claims[r])
  }

  lemma {:induction false} RunsCompose(s: Fine.System, a: seq<Fine.Statement>, b: seq<Fine.Statement>)
    requires Fine.LegalRun(s, a) && Fine.LegalRun(Fine.Exec(s, a), b)
    ensures Fine.LegalRun(s, a + b) && Fine.Exec(s, a + b) == Fine.Exec(Fine.Exec(s, a), b)
    decreases |a|
  {
    if a == [] {
      assert a + b == b;
    } else {
      assert (a + b)[1..] == a[1..] + b;
      RunsCompose(Fine.Step(s, a[0]), a[1..], b);
    }
  }

  lemma OneStatement(s: Fine.System, a: Fine.Statement)
    requires Fine.Legal(s, a)
    ensures Fine.LegalRun(s, [a]) && Fine.Exec(s, [a]) == Fine.Step(s, a)
  {
    assert [a][1..] == [];
    assert Fine.Exec(Fine.Step(s, a), []) == Fine.Step(s, a);
  }

  // ---------------------------------------------------------------------
  // The reclaims of a claim, one at a time.
  // ---------------------------------------------------------------------

  function ReclaimSet(db: Db, ids: set<RunId>, now: Time): Db {
    db.(runs := map r | r in db.runs ::
          if r in ids && db.runs[r].status == Running then Reclaimed(db.runs[r], now) else db.runs[r])
  }

  lemma {:induction false} ReclaimOneByOne(s: Fine.System, ids: set<RunId>, now: Time) returns (run: seq<Fine.Statement>)
    ensures Fine.LegalRun(s, run)
    ensures Fine.Exec(s, run) == s.(db := ReclaimSet(s.db, ids, now))
    decreases ids
  {
    if ids == {} {
      run := [];
      assert ReclaimSet(s.db, ids, now).runs == s.db.runs;
    } else {
      var r :| r in ids;
      var a := Fine.Reclaim(r, now);
      OneStatement(s, a);
      var next := Fine.Step(s, a);
      var rest := ReclaimOneByOne(next, ids - {r}, now);
      RunsCompose(s, [a], rest);
      run := [a] + rest;
      assert ReclaimSet(next.db, ids - {r}, now).runs == ReclaimSet(s.db, ids, now).runs;
    }
  }

  lemma ReclaimPhase(s: Fine.System, q: Request) returns (run: seq<Fine.Statement>)
    ensures Fine.LegalRun(s, run)
    ensures Fine.Exec(s, run) == s.(db := ReclaimExpired(s.db, q.job, q.now, q.alive))
  {
    var ids := set r | r in s.db.runs && s.db.runs[r].job == q.job && Reclaimable(s.db.runs[r], q.now, q.alive);
    run := ReclaimOneByOne(s, ids, q.now);
    assert ReclaimSet(s.db, ids, q.now).runs == ReclaimExpired(s.db, q.job, q.now, q.alive).runs;
  }

  lemma NextAttemptAfterReclaims(db: Db, q: Request)
    requires IsNextAttempt(db, q.job, q.attempt)
    ensures IsNextAttempt(ReclaimExpired(db, q.job, q.now, q.alive), q.job, q.attempt)
  {
    var db1 := ReclaimExpired(db, q.job, q.now, q.alive);
    assert forall r :: r in db.runs ==> db1.runs[r].job == db.runs[r].job && db1.runs[r].attempt == db.runs[r].attempt;
    if q.attempt != 1 {
      var r :| r in db.runs && db.runs[r].job == q.job && db.runs[r].attempt == q.attempt - 1;
      assert r in db1.runs && db1.runs[r].job == q.job && db1.runs[r].attempt == q.attempt - 1;
    }
  }

  // ---------------------------------------------------------------------
  // A whole claim.
  // ---------------------------------------------------------------------

  function AfterClaim(s: Fine.System, q: Request): Fine.System {
    var c := ClaimJob(s.db, q);
    Fine.System(c.db, if c.claim.Some? then s.holds[q.runId := Fine.Held(c.claim.value)] else s.holds)
  }

  ghost predicate IsFresh(s: Fine.System, q: Request) {
    && q.runId !in s.holds
    && (forall r :: r in s.holds ==> s.holds[r].Tag() != q.token)
  }

  /** Insert and read back, on tables where the insert succeeds. */
  lemma InsertPhase(s: Fine.System, q: Request) returns (run: seq<Fine.Statement>)
    requires IsFresh(s, q) && IsNextAttempt(s.db, q.job, q.attempt)
    requires CanInsert(s.db, q.job, q.now, q.requireDue)
    ensures Fine.LegalRun(s, run)
    ensures Fine.Exec(s, run) == Fine.System(
              InsertRun(s.db, q.runId, q.job, q.token, q.now, q.requireDue, q.attempt, q.pid),
              s.holds[q.runId := Fine.Held(Claim(q.runId, q.token, q.job, s.db.jobs[q.job], q.advanceSchedule))])
  {
    var insert := Fine.Insert(q.runId, q.job, q.token, q.now, q.requireDue, q.advanceSchedule, q.attempt, q.pid);
    var read := Fine.ReadJob(q.runId);
    OneStatement(s, insert);
    var s1 := Fine.Step(s, insert);
    OneStatement(s1, read);
    RunsCompose(s, [insert], [read]);
    run := [insert] + [read];
    var held := Fine.Held(Claim(q.runId, q.token, q.job, s.db.jobs[q.job], q.advanceSchedule));
    assert Fine.Step(s1, read).holds == s.holds[q.runId := held];
  }

  lemma {:induction false} ClaimIsStatements(s: Fine.System, q: Request) returns (run: seq<Fine.Statement>)
    requires IsFresh(s, q) && IsNextAttempt(s.db, q.job, q.attempt)
    ensures Fine.LegalRun(s, run) && Fine.Exec(s, run) == AfterClaim(s, q)
  {
    if q.cutoverPending {
      run := [];
      return;
    }
    var reclaims := ReclaimPhase(s, q);
    var s1 := Fine.Exec(s, reclaims);
    NextAttemptAfterReclaims(s.db, q);
    var c := ClaimJob(s.db, q);
    if c.claim.Some? {
      var rest := InsertPhase(s1, q);
      RunsCompose(s, reclaims, rest);
      run := reclaims + rest;
    } else if c.db == s1.db {
      run := reclaims;
    } else {
      var job := s1.db.jobs[q.job];
      var retire := Fine.Retire(q.job, job.expression, job.nextRunAt.value, job.payload, q.now);
      OneStatement(s1, retire);
      RunsCompose(s, reclaims, [retire]);
      run := reclaims + [retire];
    }
  }

  // ---------------------------------------------------------------------
  // Whole runs.
  // ---------------------------------------------------------------------

  lemma ClaimMatches(w: Coarse.World, s: Fine.System, q: Request)
    requires Matches(w, s)
    ensures Matches(Coarse.Step(w, Coarse.ClaimEvent(q)), AfterClaim(s, q))
  {
    var w' := Coarse.Step(w, Coarse.ClaimEvent(q));
    assert AfterClaim(s, q).holds == map r | r in w'.claims :: Fine.Held(w'.claims[r]);
  }

  lemma FreshToBoth(w: Coarse.World, s: Fine.System, q: Request)
    requires Matches(w, s) && Coarse.Legal(w, Coarse.ClaimEvent(q))
    ensures IsFresh(s, q)
  {
  }

  lemma OwnerStepMatches(w: Coarse.World, s: Fine.System, e: Coarse.Event) returns (a: Fine.Statement)
    requires Matches(w, s) && !e.ClaimEvent? && Coarse.Legal(w, e)
    ensures Fine.Legal(s, a) && Matches(Coarse.Step(w, e), Fine.Step(s, a))
  {
    match e
    case RefreshEvent(runId, at) =>
      a := Fine.Refresh(runId, at);
    case FinishEvent(runId, outcome, at, scheduled, listing) =>
      a := Fine.Finish(runId, outcome, at, scheduled, listing);
    case OutsideEvent(o) =>
      a := Fine.Other(o);
  }

  lemma StepIsStatements(w: Coarse.World, s: Fine.System, e: Coarse.Event) returns (run: seq<Fine.Statement>)
    requires Matches(w, s) && Coarse.Legal(w, e)
    ensures Fine.LegalRun(s, run) && Matches(Coarse.Step(w, e), Fine.Exec(s, run))
  {
    if e.ClaimEvent? {
      FreshToBoth(w, s, e.q);
      run := ClaimIsStatements(s, e.q);
      ClaimMatches(w, s, e.q);
    } else {
      var a := OwnerStepMatches(w, s, e);
      OneStatement(s, a);
      run := [a];
    }
  }

  /** Every run with atomic claims is a run of the interleaved system that ends in the same
      tables with the same claims held. */
  lemma {:induction false} CoarseRefinesFine(w: Coarse.World, s: Fine.System, run: seq<Coarse.Event>)
      returns (statements: seq<Fine.Statement>)
    requires Matches(w, s) && Coarse.LegalRun(w, run)
    ensures Fine.LegalRun(s, statements)
    ensures Matches(Coarse.Exec(w, run), Fine.Exec(s, statements))
    decreases |run|
  {
    if run == [] {
      statements := [];
    } else {
      var first := StepIsStatements(w, s, run[0]);
      var rest := CoarseRefinesFine(Coarse.Step(w, run[0]), Fine.Exec(s, first), run[1..]);
      RunsCompose(s, first, rest);
      statements := first + rest;
    }
  }
}
