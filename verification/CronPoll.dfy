/** Polls: the due jobs of a listing do not get in each other's way, except that an unreadable
    overdue one-shot keeps all later ones from their turn. */
module CronPoll {
  import opened Common
  import opened CronTypes
  import opened CronStatements
  import opened CronScheduler
  import opened CronWorld

  /** The jobs listed are different, and the ids drawn for them are fresh. */
  ghost predicate IsListing(db: Db, requests: seq<Request>) {
    && (forall i :: 0 <= i < |requests| ==> requests[i].requireDue && requests[i].runId !in db.runs)
    && (forall i, k :: 0 <= i < k < |requests| ==>
          requests[i].job != requests[k].job && requests[i].runId != requests[k].runId)
  }

  // ---------------------------------------------------------------------
  // A claim sees its own job only.
  // ---------------------------------------------------------------------

  predicate IsRunOf(db: Db, r: RunId, j: JobId) {
    r in db.runs && db.runs[r].job == j
  }

  /** Row and runs of `j` are the same in both tables. */
  ghost predicate SameView(db: Db, db': Db, j: JobId) {
    && (j in db.jobs <==> j in db'.jobs) && (j in db.jobs ==> db.jobs[j] == db'.jobs[j])
    && (forall r :: IsRunOf(db, r, j) <==> IsRunOf(db', r, j))
    && (forall r :: IsRunOf(db, r, j) ==> db.runs[r] == db'.runs[r])
  }

  lemma OneWayRunning(db: Db, db': Db, j: JobId)
    requires forall r :: IsRunOf(db, r, j) ==> IsRunOf(db', r, j) && db'.runs[r] == db.runs[r]
    ensures HasRunning(db, j) ==> HasRunning(db', j)
  {
    if HasRunning(db, j) {
      var r :| r in db.runs && db.runs[r].job == j && db.runs[r].status == Running;
      assert IsRunOf(db, r, j);
    }
  }

  lemma ReclaimsAlike(db: Db, db': Db, q: Request)
    requires SameView(db, db', q.job)
    ensures var a, b := ReclaimExpired(db, q.job, q.now, q.alive), ReclaimExpired(db', q.job, q.now, q.alive);
            HasRunning(a, q.job) <==> HasRunning(b, q.job)
  {
    var a, b := ReclaimExpired(db, q.job, q.now, q.alive), ReclaimExpired(db', q.job, q.now, q.alive);
    forall r ensures IsRunOf(a, r, q.job) <==> IsRunOf(b, r, q.job)
             ensures IsRunOf(a, r, q.job) ==> a.runs[r] == b.runs[r]
    {
      assert IsRunOf(db, r, q.job) <==> IsRunOf(a, r, q.job);
      assert IsRunOf(db', r, q.job) <==> IsRunOf(b, r, q.job);
    }
    OneWayRunning(a, b, q.job);
    OneWayRunning(b, a, q.job);
  }

  lemma ClaimSeesOwnJob(db: Db, db': Db, q: Request)
    requires SameView(db, db', q.job)
    ensures ClaimJob(db, q).claim == ClaimJob(db', q).claim && (ClaimFails(db, q) <==> ClaimFails(db', q))
  {
    ReclaimsAlike(db, db', q);
  }

  lemma ClaimSparesOthers(db: Db, q: Request, j: JobId)
    requires q.runId !in db.runs && q.job != j
    ensures SameView(db, ClaimJob(db, q).db, j)
  {
    ClaimEffect(db, q);
    ClaimLeavesOthers(db, q);
    var db' := ClaimJob(db, q).db;
    forall r ensures IsRunOf(db, r, j) <==> IsRunOf(db', r, j)
             ensures IsRunOf(db, r, j) ==> db.runs[r] == db'.runs[r]
    {
      assert r == q.runId && r in db'.runs ==> db'.runs[r].job == q.job;
    }
  }

  // ---------------------------------------------------------------------
  // Whole polls.
  // ---------------------------------------------------------------------

  /** What the requests would claim if each were alone. */
  function ClaimsAlone(db: Db, requests: seq<Request>): seq<Claim> {
    if requests == [] then [] else Made(ClaimJob(db, requests[0]).claim) + ClaimsAlone(db, requests[1..])
  }

  /** Requests that see the same in both tables. */
  ghost predicate SameViews(db: Db, db': Db, requests: seq<Request>) {
    forall i :: 0 <= i < |requests| ==> SameView(db, db', requests[i].job)
  }

  lemma {:induction false} ClaimAlike(db: Db, db': Db, requests: seq<Request>)
    requires SameViews(db, db', requests)
    ensures ClaimsAlone(db, requests) == ClaimsAlone(db', requests)
    decreases |requests|
  {
    if requests != [] {
      ClaimSeesOwnJob(db, db', requests[0]);
      ClaimAlike(db, db', requests[1..]);
    }
  }

  lemma RestSeesSame(db: Db, requests: seq<Request>)
    requires requests != [] && IsListing(db, requests)
    ensures var db' := ClaimJob(db, requests[0]).db;
            && IsListing(db', requests[1..]) && SameViews(db, db', requests[1..])
            && forall i :: 0 < i < |requests| ==> (ClaimFails(db', requests[i]) <==> ClaimFails(db, requests[i]))
  {
    var db' := ClaimJob(db, requests[0]).db;
    ClaimLeavesOthers(db, requests[0]);
    forall i | 0 < i < |requests|
      ensures SameView(db, db', requests[i].job) && (ClaimFails(db', requests[i]) <==> ClaimFails(db, requests[i]))
    {
      ClaimSparesOthers(db, requests[0], requests[i].job);
      ClaimSeesOwnJob(db, db', requests[i]);
    }
  }

  /** The first `i` requests raise no error. */
  ghost predicate AllSucceed(db: Db, requests: seq<Request>, i: nat)
    requires i <= |requests|
  {
    forall k :: 0 <= k < i ==> !ClaimFails(db, requests[k])
  }

  lemma ShiftSucceed(db: Db, db': Db, requests: seq<Request>, i: nat)
    requires 0 < i <= |requests| && !ClaimFails(db, requests[0])
    requires forall k :: 0 < k < |requests| ==> (ClaimFails(db', requests[k]) <==> ClaimFails(db, requests[k]))
    ensures AllSucceed(db, requests, i) <==> AllSucceed(db', requests[1..], i - 1)
  {
    assert forall k :: 0 <= k < i - 1 ==> requests[1..][k] == requests[k + 1];
    if AllSucceed(db', requests[1..], i - 1) {
      forall k | 0 <= k < i ensures !ClaimFails(db, requests[k]) {
        assert k > 0 ==> !ClaimFails(db', requests[1..][k - 1]);
      }
    }
  }

  /** The first job whose claim fails is the last one that the poll comes to. */
  lemma {:induction false} PollReaches(db: Db, requests: seq<Request>, i: nat)
    requires IsListing(db, requests) && i <= |requests|
    ensures var p := Poll(db, requests);
            && p.attempted <= |requests| && (p.failed ==> p.attempted > 0) && (!p.failed ==> p.attempted == |requests|)
            && (i < |requests| ==> (i < p.attempted <==> AllSucceed(db, requests, i)))
            && (p.failed <==> !AllSucceed(db, requests, |requests|))
    decreases |requests|
  {
    if requests != [] && !ClaimFails(db, requests[0]) {
      var db', rest := ClaimJob(db, requests[0]).db, requests[1..];
      RestSeesSame(db, requests);
      PollReaches(db', rest, if i == 0 then 0 else i - 1);
      ShiftSucceed(db, db', requests, |requests|);
      if i > 0 {
        ShiftSucceed(db, db', requests, i);
      }
    }
  }

  /** The requests that a poll carries through. */
  function Carried(p: Polled, requests: seq<Request>): seq<Request>
    requires p.attempted <= |requests| && (p.failed ==> p.attempted > 0)
  {
    if p.failed then requests[..p.attempted - 1] else requests
  }

  lemma {:induction false} PollClaims(db: Db, requests: seq<Request>)
    requires IsListing(db, requests)
    ensures var p := Poll(db, requests);
            && p.attempted <= |requests| && (p.failed ==> p.attempted > 0)
            && p.claims == ClaimsAlone(db, Carried(p, requests))
    decreases |requests|
  {
    if requests != [] && !ClaimFails(db, requests[0]) {
      var db', rest := ClaimJob(db, requests[0]).db, requests[1..];
      RestSeesSame(db, requests);
      PollClaims(db', rest);
      var carried := Carried(Poll(db', rest), rest);
      assert SameViews(db, db', carried);
      ClaimAlike(db, db', carried);
      FirstAlone(db, requests[0], carried);
      assert Carried(Poll(db, requests), requests) == [requests[0]] + carried;
    }
  }

  /** A listed job gets its turn if and only if no job before it is an unreadable overdue one-shot;
      and the jobs that get their turn are claimed exactly as if each were alone. */
  lemma PollIsPerJob(db: Db, requests: seq<Request>)
    requires IsListing(db, requests)
    ensures var p := Poll(db, requests);
            && p.attempted <= |requests| && (p.failed ==> p.attempted > 0)
            && (forall i :: 0 <= i < |requests| ==> (i < p.attempted <==> AllSucceed(db, requests, i)))
            && (p.failed <==> !AllSucceed(db, requests, |requests|))
            && p.claims == ClaimsAlone(db, Carried(p, requests))
  {
    PollClaims(db, requests);
    PollReaches(db, requests, 0);
    forall i | 0 <= i < |requests| ensures i < Poll(db, requests).attempted <==> AllSucceed(db, requests, i) {
      PollReaches(db, requests, i);
    }
  }

  lemma FirstAlone(db: Db, q: Request, rest: seq<Request>)
    ensures ClaimsAlone(db, [q] + rest) == Made(ClaimJob(db, q).claim) + ClaimsAlone(db, rest)
  {
    assert ([q] + rest)[1..] == rest;
  }

  // ---------------------------------------------------------------------
  // Starvation.
  // ---------------------------------------------------------------------

  /** The unreadable row is left as it is, and fails at every later instant as well. */
  lemma FailureLasts(db: Db, q: Request, later: Request)
    requires ClaimFails(db, q) && q.runId !in db.runs
    requires later.job == q.job && later.now >= q.now && later.requireDue && !later.cutoverPending
    ensures ClaimFails(ClaimJob(db, q).db, later)
  {
    ClaimEffect(db, q);
  }

  lemma {:induction false} PollKeepsFailure(db: Db, requests: seq<Request>, q: Request, later: Request)
    requires IsListing(db, requests) && ClaimFails(db, q)
    requires later.job == q.job && later.now >= q.now && later.requireDue && !later.cutoverPending
    requires forall i :: 0 <= i < |requests| && requests[i].job == q.job ==> requests[i] == q
    ensures ClaimFails(Poll(db, requests).db, later)
    decreases |requests|
  {
    if requests != [] {
      var first, db' := requests[0], ClaimJob(db, requests[0]).db;
      if first.job == q.job {
        FailureLasts(db, q, later);
      } else {
        ClaimSparesOthers(db, first, q.job);
        ClaimSeesOwnJob(db, db', q);
        ClaimSeesOwnJob(db, db', later);
        if !ClaimFails(db, first) {
          RestSeesSame(db, requests);
          PollKeepsFailure(db', requests[1..], q, later);
        }
      }
    }
  }

  /** So a job that is listed after such a row in one poll, and again in the next, is not reached
      by the next one either. */
  lemma StarvationLasts(db: Db, requests: seq<Request>, k: nat, next: seq<Request>, m: nat, i: nat)
    requires IsListing(db, requests) && k < |requests| && ClaimFails(db, requests[k])
    requires IsListing(Poll(db, requests).db, next) && m < i < |next|
    requires next[m].job == requests[k].job && next[m].now >= requests[k].now && !next[m].cutoverPending
    ensures Poll(Poll(db, requests).db, next).attempted <= i
  {
    PollKeepsFailure(db, requests, requests[k], next[m]);
    PollIsPerJob(Poll(db, requests).db, next);
    assert !AllSucceed(Poll(db, requests).db, next, i);
  }
}
