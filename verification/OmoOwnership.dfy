/** Ownership of submitted turns over whole histories of the gateway: a session's next
    `turn/start` waits until the previous turn is known to be over, or long dead. */
module OmoOwnership {
  import opened Common
  import opened OmoTurn

  /** Live loops by session, with the state each is in. */
  datatype Live = Live(session: Session, state: State)

  datatype Gateway = Gateway(active: Active, live: map<Key, Live>)

  datatype Event =
    /** A run reaches its submission; `sent` says whether the socket write succeeded. */
    | Submit(session: Session, at: Instant, totalTimeout: int, sent: bool)
    /** The session's loop makes one pass. */
    | LoopPass(key: Key, pass: Pass)
    /** The run is dropped, as the actor does before cancelling. */
    | Drop(key: Key)
    /** A cancellation for the entry `turn`, read earlier, gets `reply`, or nothing in time. */
    | CancelReply(key: Key, turn: ActiveTurn, reply: Option<Frame>)

  /** One live run per session. */
  predicate Legal(g: Gateway, e: Event) {
    match e
    case Submit(session, _, _, _) => session.key !in g.live
    case LoopPass(key, _) => key in g.live
    case _ => true
  }

  function Step(g: Gateway, e: Event): Gateway {
    match e
    case Submit(c, at, totalTimeout, sent) =>
      if !MaySubmit(g.active, c.key, at, totalTimeout) then g
      else if sent then Gateway(g.active[c.key := ActiveTurn(c.threadId, None, at)], g.live[c.key := Live(c, Initial(at))])
      else g.(active := g.active - {c.key})
    case LoopPass(key, pass) =>
      if key !in g.live then g
      else
        var l := g.live[key];
        var v := Iterate(l.session, l.state, g.active, pass);
        Gateway(v.active, if v.end.Some? then g.live - {key} else g.live[key := l.(state := v.state)])
    case Drop(key) => g.(live := g.live - {key})
    case CancelReply(key, turn, reply) =>
      if reply.Some? && AcknowledgesCancel(turn, reply.value) && key in g.active && g.active[key] == turn
      then g.(active := g.active - {key})
      else g
  }

  /** A `turn/start` goes onto the socket for `key`. */
  predicate Writes(g: Gateway, e: Event, key: Key) {
    e.Submit? && e.session.key == key && MaySubmit(g.active, key, e.at, e.totalTimeout)
  }

  // ---------------------------------------------------------------------
  // The releasing events, in terms of what arrives.
  // ---------------------------------------------------------------------

  /** `turn/start` was answered with an error. */
  predicate IsStartError(l: Live, f: Frame) {
    IsStartResponse(l.state, f) && f.hasError
  }

  /** A terminal `turn/completed` of this very thread and turn, other than an empty completion
      inside the startup grace. */
  predicate IsOwnEnd(l: Live, f: Frame, now: Instant) {
    && f.verb.TurnCompleted? && !f.status.Unsettled?
    && l.state.turnId.Some?
    && f.threadId == Str(l.session.threadId) && f.TurnId() == l.state.turnId
    && !IsPrematureEmpty(l, f, now)
  }

  predicate IsPrematureEmpty(l: Live, f: Frame, now: Instant) {
    var text := l.session.scrub(l.state.content);
    && f.status.Completed?
    && !CutByStreamRule(l.state.content)
    && !l.session.isSilence(text)
    && text == "" && l.state.toolCalls == 0
    && now - l.session.startedAt < l.session.noContentGrace
  }

  /** After the deadline the interrupt, or the end of the turn, is confirmed. */
  predicate IsConfirmedAfterDeadline(l: Live, p: Pass) {
    && HeadCheck(l.session, l.state, p.headAt) == Some(DeadlineExceeded)
    && l.state.turnId.Some? && p.drain.reply.Some?
    && (ConfirmsInterrupt(p.drain.reply.value)
        || ConfirmsEnd(l.session.threadId, l.state.turnId.value, p.drain.reply.value))
  }

  predicate PassReleases(l: Live, p: Pass) {
    || (ReachesHandler(l.session, l.state, p) && (IsStartError(l, p.read.frame) || IsOwnEnd(l, p.read.frame, p.readAt)))
    || IsConfirmedAfterDeadline(l, p)
  }

  predicate Releases(g: Gateway, e: Event, key: Key) {
    match e
    case Submit(c, at, totalTimeout, sent) => Writes(g, e, key) && !sent
    case LoopPass(k, pass) => k == key && key in g.live && PassReleases(g.live[key], pass)
    case Drop(_) => false
    case CancelReply(k, turn, reply) =>
      && k == key && reply.Some? && AcknowledgesCancel(turn, reply.value)
      && key in g.active && g.active[key] == turn
  }

  // ---------------------------------------------------------------------
  // One pass.
  // ---------------------------------------------------------------------

  /** What one pass of the loop `l` may do to the ownership map: other sessions keep their
      entries, its own goes exactly when `released`, and keeps its age otherwise; the map
      is untouched until the acknowledgement. */
  ghost predicate IsOwnershipChange(l: Live, active: Active, v: Verdict, released: bool) {
    var key := l.session.key;
    && (forall k :: k != key ==> (k in v.active <==> k in active) && (k in active ==> v.active[k] == active[k]))
    && (key in active ==> (key !in v.active <==> released))
    && (key in active && key in v.active ==> v.active[key].insertedAt == active[key].insertedAt)
    && (v.end.None? && v.state.turnId.None? ==> v.active == active && l.state.turnId.None?)
  }

  /** A handled frame removes the entry exactly on a start error or the turn's own end. */
  lemma HandleOwnership(l: Live, active: Active, f: Frame, now: Instant)
    ensures IsOwnershipChange(l, active, Handle(l.session, l.state, active, f, now),
                              IsStartError(l, f) || IsOwnEnd(l, f, now))
  {
    var c := l.session;
    if IsStartResponse(l.state, f) {
    } else if IsApproval(f) {
    } else if IsForeign(c, l.state.turnId, f) {
    } else if f.verb.TurnCompleted? {
      EndOwnership(l, active, f, now);
    } else {
      OtherOwnership(l, active, f, now);
    }
  }

  lemma EndOwnership(l: Live, active: Active, f: Frame, now: Instant)
    requires f.verb.TurnCompleted? && !IsForeign(l.session, l.state.turnId, f)
    ensures IsOwnershipChange(l, active, HandleTurnCompleted(l.session, l.state, active, f, now), IsOwnEnd(l, f, now))
  {
    assert f.threadId == Str(l.session.threadId);
  }

  lemma OtherOwnership(l: Live, active: Active, f: Frame, now: Instant)
    requires !f.verb.TurnCompleted?
    ensures IsOwnershipChange(l, active, Dispatch(l.session, l.state, active, f, now), false)
  {
  }

  lemma DrainOwnership(l: Live, active: Active, p: Pass)
    requires HeadCheck(l.session, l.state, p.headAt) == Some(DeadlineExceeded)
    ensures IsOwnershipChange(l, active, AfterDeadline(l.session, l.state, active, p.drain), PassReleases(l, p))
  {
  }

  lemma ReadOwnership(l: Live, active: Active, p: Pass)
    requires ReachesHandler(l.session, l.state, p)
    ensures IsOwnershipChange(l, active, Iterate(l.session, l.state, active, p), PassReleases(l, p))
  {
    var l1 := l.(state := l.state.(lastActivity := p.readAt));
    HandleOwnership(l1, active, p.read.frame, p.readAt);
    assert IsStartError(l1, p.read.frame) == IsStartError(l, p.read.frame);
    assert IsOwnEnd(l1, p.read.frame, p.readAt) == IsOwnEnd(l, p.read.frame, p.readAt);
  }

  /** One pass takes the session's entry away exactly when it is a releasing one. */
  lemma PassOwnership(l: Live, active: Active, p: Pass)
    ensures IsOwnershipChange(l, active, Iterate(l.session, l.state, active, p), PassReleases(l, p))
  {
    if HeadCheck(l.session, l.state, p.headAt) == Some(DeadlineExceeded) {
      DrainOwnership(l, active, p);
    } else if ReachesHandler(l.session, l.state, p) {
      ReadOwnership(l, active, p);
    } else {
      var v := Iterate(l.session, l.state, active, p);
      assert v.active == active && v.state.turnId == l.state.turnId;
    }
  }

  /** Ends that say nothing about the fate of the turn. */
  predicate IsUnresolved(end: End) {
    match end
    case Disconnected | SocketError | InvalidJson | AckTimeout | IdleTimeout | DenialLoop | TurnError | MissingTurnId => true
    case _ => false
  }

  lemma HandledIsUnresolved(l: Live, active: Active, f: Frame, now: Instant)
    ensures var v := Handle(l.session, l.state, active, f, now);
            v.end.Some? && IsUnresolved(v.end.value) ==> !IsStartError(l, f) && !IsOwnEnd(l, f, now)
  {
  }

  /** A pass that ends in a disconnect, a broken or unreadable message, a missing
      acknowledgement, silence, a denial abort, a turn error or an acknowledgement without a
      turn id releases nothing: the session stays the owner of its submission. */
  lemma UnresolvedEndsKeepOwnership(l: Live, active: Active, p: Pass)
    ensures var v := Iterate(l.session, l.state, active, p);
            v.end.Some? && IsUnresolved(v.end.value) ==>
              && !PassReleases(l, p)
              && (l.session.key in active ==> l.session.key in v.active)
  {
    PassOwnership(l, active, p);
    if ReachesHandler(l.session, l.state, p) {
      var l1 := l.(state := l.state.(lastActivity := p.readAt));
      HandledIsUnresolved(l1, active, p.read.frame, p.readAt);
      assert IsOwnEnd(l1, p.read.frame, p.readAt) == IsOwnEnd(l, p.read.frame, p.readAt);
    }
  }

  // ---------------------------------------------------------------------
  // Histories.
  // ---------------------------------------------------------------------

  /** A loop that still waits for its acknowledgement owns an unacknowledged entry. */
  ghost predicate Inv(g: Gateway) {
    forall key :: key in g.live ==>
      && g.live[key].session.key == key
      && (g.live[key].state.turnId.None? ==> key in g.active && g.active[key].turnId == None)
  }

  /** A gateway that has just been started. */
  lemma EmptyIsInv()
    ensures Inv(Gateway(map[], map[]))
  {
  }

  lemma StepKeepsInv(g: Gateway, e: Event)
    requires Inv(g) && Legal(g, e)
    ensures Inv(Step(g, e))
  {
    if e.LoopPass? {
      PassOwnership(g.live[e.key], g.active, e.pass);
    }
  }

  /** The entry of `key` dates from a submission at `since`. */
  predicate OwnedSince(g: Gateway, key: Key, since: Instant) {
    key in g.active && g.active[key].insertedAt == since
  }

  /** Whatever is neither a release nor a write of `key` leaves its ownership as it is:
      disconnects, timeouts, aborts, turn errors, other sessions, cancellations that fail. */
  lemma OwnershipPersists(g: Gateway, e: Event, key: Key, since: Instant)
    requires Inv(g) && Legal(g, e) && OwnedSince(g, key, since)
    requires !Writes(g, e, key) && !Releases(g, e, key)
    ensures OwnedSince(Step(g, e), key, since)
  {
    if e.LoopPass? {
      PassOwnership(g.live[e.key], g.active, e.pass);
    }
  }

  ghost predicate LegalRun(g: Gateway, run: seq<Event>)
    decreases |run|
  {
    run == [] || (Legal(g, run[0]) && LegalRun(Step(g, run[0]), run[1..]))
  }

  function Exec(g: Gateway, run: seq<Event>): Gateway
    decreases |run|
  {
    if run == [] then g else Exec(Step(g, run[0]), run[1..])
  }

  /** Event `i` of a history releases, or writes for, the session. */
  predicate ReleasesAt(g: Gateway, run: seq<Event>, i: nat, key: Key)
    requires i < |run|
  {
    Releases(Exec(g, run[..i]), run[i], key)
  }

  predicate WritesAt(g: Gateway, run: seq<Event>, i: nat, key: Key)
    requires i < |run|
  {
    Writes(Exec(g, run[..i]), run[i], key)
  }

  lemma ExecFromSecond(g: Gateway, run: seq<Event>, i: nat)
    requires 0 < i <= |run|
    ensures Exec(g, run[..i]) == Exec(Step(g, run[0]), run[1..][..i - 1])
  {
    assert run[..i][1..] == run[1..][..i - 1];
  }

  lemma {:induction false} OwnedThroughout(g: Gateway, run: seq<Event>, key: Key, since: Instant)
    requires Inv(g) && LegalRun(g, run) && OwnedSince(g, key, since)
    requires forall i :: 0 <= i < |run| ==> !ReleasesAt(g, run, i, key) && !WritesAt(g, run, i, key)
    ensures OwnedSince(Exec(g, run), key, since)
    decreases |run|
  {
    if run != [] {
      assert run[..0] == [];
      assert !ReleasesAt(g, run, 0, key) && !WritesAt(g, run, 0, key);
      StepKeepsInv(g, run[0]);
      OwnershipPersists(g, run[0], key, since);
      var next, rest := Step(g, run[0]), run[1..];
      forall i | 0 <= i < |rest| ensures !ReleasesAt(next, rest, i, key) && !WritesAt(next, rest, i, key) {
        ExecFromSecond(g, run, i + 1);
        assert rest[i] == run[i + 1];
        assert !ReleasesAt(g, run, i + 1, key) && !WritesAt(g, run, i + 1, key);
      }
      OwnedThroughout(next, rest, key, since);
    }
  }

  /** Between two consecutive `turn/start` writes of one session there is a release — a failed
      write, a rejected start, the turn's own terminal frame, a confirmed interrupt — or the
      first submission is older than the second one's total timeout plus 600 seconds. */
  lemma NoDoubleSubmission(g: Gateway, first: Event, between: seq<Event>, second: Event, key: Key)
    requires Inv(g) && LegalRun(g, [first] + between + [second])
    requires Writes(g, first, key)
    requires var g1 := Step(g, first);
             && (forall i :: 0 <= i < |between| ==> !WritesAt(g1, between, i, key))
             && Writes(Exec(g1, between), second, key)
    ensures || Releases(g, first, key)
            || (exists i :: 0 <= i < |between| && ReleasesAt(Step(g, first), between, i, key))
            || second.at - first.at > second.totalTimeout + 600 * SECOND
  {
    var run := [first] + between + [second];
    var g1 := Step(g, first);
    assert run[0] == first && run[1..] == between + [second];
    StepKeepsInv(g, first);
    LegalPrefix(g1, between, [second]);
    if !Releases(g, first, key) && forall i :: 0 <= i < |between| ==> !ReleasesAt(g1, between, i, key) {
      assert OwnedSince(g1, key, first.at);
      OwnedThroughout(g1, between, key, first.at);
    }
  }

  lemma {:induction false} LegalPrefix(g: Gateway, a: seq<Event>, b: seq<Event>)
    requires LegalRun(g, a + b)
    ensures LegalRun(g, a)
    decreases |a|
  {
    if a != [] {
      assert (a + b)[1..] == a[1..] + b;
      LegalPrefix(Step(g, a[0]), a[1..], b);
    }
  }
}
