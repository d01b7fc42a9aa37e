/** What the turn loop guarantees: bounded waiting, non-interference, tool and chunk
    accounting. */
module OmoTurnLaws {
  import opened Common
  import opened OmoTurn

  // ---------------------------------------------------------------------
  // Reads that time out.
  // ---------------------------------------------------------------------

  /** A read may wait exactly until the first of the deadlines that the loop head checks. */
  lemma ReadLimitIsFirstDeadline(c: Session, st: State, now: Instant)
    ensures now >= ReadLimit(c, st) <==> HeadCheck(c, st, now).Some?
  {
  }

  /** The clock does not go back, and a read times out only at its limit. */
  ghost predicate RealTime(c: Session, st: State, active: Active, passes: seq<Pass>)
    decreases |passes|
  {
    passes != [] ==>
      && passes[0].headAt <= passes[0].readAt
      && (passes[0].read.TimedOut? ==> passes[0].readAt >= ReadLimit(c, st))
      && (|passes| > 1 ==> passes[0].readAt <= passes[1].headAt)
      && var v := Iterate(c, st, active, passes[0]);
         v.end.None? ==> RealTime(c, v.state, v.active, passes[1..])
  }

  predicate ConsumedMessage(p: Pass) {
    p.read.NotText? || p.read.NotJson? || p.read.Text?
  }

  /** Passes of a turn that is still running: every one has taken a message off the socket,
      except possibly the last. A read that timed out is followed by the end of the turn. */
  lemma {:induction false} NoIdlePasses(c: Session, st: State, active: Active, passes: seq<Pass>)
    requires RealTime(c, st, active, passes)
    requires RunLoop(c, st, active, passes).end.None?
    ensures forall i :: 0 <= i < |passes| - 1 ==> ConsumedMessage(passes[i])
    decreases |passes|
  {
    if |passes| > 1 {
      var v := Iterate(c, st, active, passes[0]);
      NoIdlePasses(c, v.state, v.active, passes[1..]);
      if passes[0].read.TimedOut? && HeadCheck(c, st, passes[0].headAt).None? {
        TimeoutEndsTurn(c, st, active, passes[1]);
        assert false;
      }
      forall i | 0 <= i < |passes| - 1 ensures ConsumedMessage(passes[i]) {
        if i > 0 {
          assert passes[i] == passes[1..][i - 1];
        }
      }
    }
  }

  /** The turn ended without an error. */
  predicate IsSuccess(end: End) {
    end.Delivered? || end.Silent?
  }

  /** The drain after the work deadline found the turn completed with something to show. */
  predicate DrainDelivers(c: Session, st: State, p: Pass) {
    && st.turnId.Some? && p.headAt >= c.workDeadline
    && p.drain.reply.Some? && p.drain.reply.value.status.Completed?
    && (p.drain.content != "" || st.toolCalls > 0)
    && !CutByStreamRule(p.drain.content)
  }

  /** The pass after a timed-out read ends the turn, and with an error exactly unless the drain
      finds it completed. */
  lemma TimeoutEndsTurn(c: Session, st: State, active: Active, p: Pass)
    requires p.headAt >= ReadLimit(c, st)
    ensures var end := Iterate(c, st, active, p).end;
            end.Some? && (IsSuccess(end.value) <==> DrainDelivers(c, st, p))
  {
    ReadLimitIsFirstDeadline(c, st, p.headAt);
  }

  /** A frame with nothing in it. */
  const EMPTY_FRAME: Frame :=
    Frame(NoId, NoMethod, false, false, Absent, Absent, Absent, false, Absent, Unsettled, None, Absent, false)

  /** Such a drain: the read timed out, the work deadline is over, and then the turn's completion
      comes in with the text "ok". The turn is delivered. */
  lemma TimeoutMayDeliver(c: Session)
    requires c.workDeadline <= 100 && !c.suppressEmission && c.scrub("ok") == "ok" && !c.isSilence("ok")
    ensures var st := Initial(0).(turnId := Some("t"));
            var f := EMPTY_FRAME.(verb := TurnCompleted, status := Completed);
            var p := Pass(100, TimedOut, 100, Drain(Some(f), "ok"));
            p.headAt >= ReadLimit(c, st) && Iterate(c, st, map[], p).end == Some(Delivered)
  {
    assert !CutByStreamRule("ok") by {
      ContainsItsLetters("ok", "[output interrupted by stream rule]", 0);
    }
  }

  // ---------------------------------------------------------------------
  // Non-interference.
  // ---------------------------------------------------------------------

  datatype Arrival = Arrival(frame: Frame, at: Instant)

  /** The frames in order, with no timer firing. */
  function Fold(c: Session, st: State, active: Active, frames: seq<Arrival>): Verdict
    decreases |frames|
  {
    if frames == [] then Verdict(st, active, None)
    else
      var v := Handle(c, st, active, frames[0].frame, frames[0].at);
      if v.end.Some? then v else Fold(c, v.state, v.active, frames[1..])
  }

  predicate IsStartFrame(f: Frame) {
    f.verb.NoMethod? && f.id == Number(3)
  }

  /** The turn id that the frames up to here have acknowledged, read off the frames alone. */
  function Acknowledged(known: Option<string>, f: Frame): Option<string> {
    if known.None? && IsStartFrame(f) then f.resultTurnId.AsStr() else known
  }

  /** A turn-bearing frame, not asking for approval, of another thread or turn, or ahead of the
      acknowledgement. */
  predicate IsNoise(c: Session, known: Option<string>, f: Frame) {
    IsTurnBearing(f) && !IsApproval(f)
    && (known.None? || f.threadId.AsStr() != Some(c.threadId) || f.TurnId() != known)
  }

  /** The sequence without its noise. */
  function Purge(c: Session, known: Option<string>, frames: seq<Arrival>): seq<Arrival>
    decreases |frames|
  {
    if frames == [] then []
    else
      var rest := Purge(c, Acknowledged(known, frames[0].frame), frames[1..]);
      if IsNoise(c, known, frames[0].frame) then rest else [frames[0]] + rest
  }

  /** Frames of other turns, replays and strays decide nothing: without them the final text,
      tool counts, chunks, ownership and outcome are the same. */
  lemma {:induction false} NonInterference(c: Session, st: State, active: Active, frames: seq<Arrival>)
    ensures Fold(c, st, active, frames) == Fold(c, st, active, Purge(c, st.turnId, frames))
    decreases |frames|
  {
    if frames != [] {
      var f := frames[0].frame;
      var v := Handle(c, st, active, f, frames[0].at);
      HandleKeepsTurnId(c, st, active, f, frames[0].at);
      if IsNoise(c, st.turnId, f) {
        assert v == Verdict(st, active, None);
        NonInterference(c, st, active, frames[1..]);
      } else {
        var rest := Purge(c, Acknowledged(st.turnId, f), frames[1..]);
        assert Purge(c, st.turnId, frames) == [frames[0]] + rest;
        assert ([frames[0]] + rest)[1..] == rest;
        if v.end.None? {
          NonInterference(c, v.state, v.active, frames[1..]);
        }
      }
    }
  }

  /** While the turn goes on, its id is the acknowledged one. */
  lemma HandleKeepsTurnId(c: Session, st: State, active: Active, f: Frame, now: Instant)
    ensures var v := Handle(c, st, active, f, now);
            v.end.None? ==> v.state.turnId == Acknowledged(st.turnId, f)
  {
  }

  /** Two streams that differ only in noise drive the turn alike. */
  lemma NoiseIsIrrelevant(c: Session, st: State, active: Active, a: seq<Arrival>, b: seq<Arrival>)
    requires Purge(c, st.turnId, a) == Purge(c, st.turnId, b)
    ensures Fold(c, st, active, a) == Fold(c, st, active, b)
  {
    NonInterference(c, st, active, a);
    NonInterference(c, st, active, b);
  }

  // ---------------------------------------------------------------------
  // The loop without timers.
  // ---------------------------------------------------------------------

  function At(st: State, activity: Instant): State {
    st.(lastActivity := activity)
  }

  lemma StartedIgnoresActivity(c: Session, st: State, item: Item, at: Instant)
    ensures HandleStarted(c, At(st, at), item) == At(HandleStarted(c, st, item), at)
  {
  }

  lemma EndIgnoresActivity(c: Session, st: State, active: Active, f: Frame, now: Instant, at: Instant)
    ensures var v := HandleTurnCompleted(c, st, active, f, now);
            HandleTurnCompleted(c, At(st, at), active, f, now) == v.(state := At(v.state, at))
  {
  }

  lemma DispatchIgnoresActivity(c: Session, st: State, active: Active, f: Frame, now: Instant, at: Instant)
    ensures var v := Dispatch(c, st, active, f, now);
            Dispatch(c, At(st, at), active, f, now) == v.(state := At(v.state, at))
  {
    match f.verb
    case ItemStarted =>
      if f.item.Some? {
        assert At(st, at).(denials := 0) == At(st.(denials := 0), at);
        StartedIgnoresActivity(c, st.(denials := 0), f.item.value, at);
      }
    case TurnCompleted => EndIgnoresActivity(c, st, active, f, now, at);
    case _ =>
  }

  lemma HandleIgnoresActivity(c: Session, st: State, active: Active, f: Frame, now: Instant, at: Instant)
    ensures var v := Handle(c, st, active, f, now);
            Handle(c, At(st, at), active, f, now) == v.(state := At(v.state, at))
  {
    DispatchIgnoresActivity(c, st, active, f, now, at);
  }

  /** Every pass up to the end of the turn brings a frame in time. */
  ghost predicate NoTimerFires(c: Session, st: State, active: Active, passes: seq<Pass>)
    decreases |passes|
  {
    passes != [] ==>
      && passes[0].read.Text?
      && HeadCheck(c, st, passes[0].headAt).None?
      && passes[0].readAt < EffectiveDeadline(c, st)
      && var v := Iterate(c, st, active, passes[0]);
         v.end.None? ==> NoTimerFires(c, v.state, v.active, passes[1..])
  }

  /** `frames` are what the passes bring. */
  predicate Bring(passes: seq<Pass>, frames: seq<Arrival>) {
    |passes| == |frames| && forall i :: 0 <= i < |passes| ==>
      passes[i].read == Text(frames[i].frame) && passes[i].readAt == frames[i].at
  }

  /** As long as no timer fires, the loop computes what its frames alone determine. */
  lemma {:induction false} LoopIsFold(c: Session, st: State, activity: Instant, active: Active, passes: seq<Pass>, frames: seq<Arrival>)
    requires NoTimerFires(c, At(st, activity), active, passes) && Bring(passes, frames)
    ensures var v := RunLoop(c, At(st, activity), active, passes);
            var w := Fold(c, st, active, frames);
            v.active == w.active && v.end == w.end && v.state == At(w.state, v.state.lastActivity)
    decreases |passes|
  {
    if passes != [] {
      var f, at := frames[0].frame, frames[0].at;
      HandleIgnoresActivity(c, st, active, f, at, at);
      var v := Handle(c, st, active, f, at);
      assert Iterate(c, At(st, activity), active, passes[0]) == v.(state := At(v.state, at));
      if v.end.None? {
        LoopIsFold(c, v.state, at, v.active, passes[1..], frames[1..]);
      }
    }
  }

  // ---------------------------------------------------------------------
  // Tool and chunk accounting.
  // ---------------------------------------------------------------------

  /** The item of a frame that starts an item of this turn. */
  predicate StartsItem(c: Session, known: Option<string>, f: Frame) {
    f.verb.ItemStarted? && !IsForeign(c, known, f) && f.item.Some? && f.item.value.id.OrEmpty() != ""
  }

  /** Item ids started so far, and those of them whose first start was a tool. */
  datatype Ledger = Ledger(seen: set<string>, tools: set<string>)

  function Record(c: Session, known: Option<string>, l: Ledger, f: Frame): Ledger {
    if !StartsItem(c, known, f) then l
    else
      var id := f.item.value.id.OrEmpty();
      if id in l.seen then l
      else Ledger(l.seen + {id}, if f.item.value.kind.Tool? then l.tools + {id} else l.tools)
  }

  function RecordAll(c: Session, known: Option<string>, l: Ledger, frames: seq<Arrival>): Ledger
    decreases |frames|
  {
    if frames == [] then l
    else RecordAll(c, Acknowledged(known, frames[0].frame), Record(c, known, l, frames[0].frame), frames[1..])
  }

  function KnownAt(known: Option<string>, frames: seq<Arrival>, i: nat): Option<string>
    requires i <= |frames|
    decreases i
  {
    if i == 0 then known else KnownAt(Acknowledged(known, frames[0].frame), frames[1..], i - 1)
  }

  /** Frame `i` starts the item `id`. */
  predicate StartsAt(c: Session, known: Option<string>, frames: seq<Arrival>, i: nat, id: string) {
    i < |frames| && StartsItem(c, KnownAt(known, frames, i), frames[i].frame) && frames[i].frame.item.value.id.OrEmpty() == id
  }

  /** The first start of `id` is at `i`, and it is a tool. */
  ghost predicate FirstStartIsTool(c: Session, known: Option<string>, frames: seq<Arrival>, i: nat, id: string) {
    && StartsAt(c, known, frames, i, id)
    && frames[i].frame.item.value.kind.Tool?
    && forall j :: 0 <= j < i ==> !StartsAt(c, known, frames, j, id)
  }

  lemma ShiftStart(c: Session, known: Option<string>, frames: seq<Arrival>, i: nat, id: string)
    requires 0 < i
    ensures frames != [] ==>
              StartsAt(c, known, frames, i, id) == StartsAt(c, Acknowledged(known, frames[0].frame), frames[1..], i - 1, id)
  {
  }

  /** The ledger holds exactly the ids whose first start in the sequence was a tool. */
  lemma {:induction false} LedgerMeaning(c: Session, known: Option<string>, l: Ledger, frames: seq<Arrival>, id: string)
    requires l.tools <= l.seen
    ensures var l' := RecordAll(c, known, l, frames);
            && l'.tools <= l'.seen
            && (id in l'.tools <==>
                  id in l.tools || (id !in l.seen && exists i: nat :: FirstStartIsTool(c, known, frames, i, id)))
    decreases |frames|
  {
    if frames != [] {
      var f, rest := frames[0].frame, frames[1..];
      var known1, l1 := Acknowledged(known, f), Record(c, known, l, f);
      LedgerMeaning(c, known1, l1, rest, id);
      if StartsAt(c, known, frames, 0, id) {
        assert id in l1.seen;
        assert id !in l.seen && f.item.value.kind.Tool? ==> FirstStartIsTool(c, known, frames, 0, id);
      } else {
        if i: nat :| FirstStartIsTool(c, known, frames, i, id) {
          ShiftStart(c, known, frames, i, id);
          forall j | 0 <= j < i - 1 ensures !StartsAt(c, known1, rest, j, id) {
            ShiftStart(c, known, frames, j + 1, id);
          }
          assert FirstStartIsTool(c, known1, rest, i - 1, id);
        }
        if i: nat :| FirstStartIsTool(c, known1, rest, i, id) {
          ShiftStart(c, known, frames, i + 1, id);
          forall j | 0 <= j < i + 1 ensures !StartsAt(c, known, frames, j, id) {
            if j > 0 { ShiftStart(c, known, frames, j, id); }
          }
          assert FirstStartIsTool(c, known, frames, i + 1, id);
        }
      }
    }
  }

  ghost function Sum(counts: map<string, nat>): nat
    decreases |counts|
  {
    if counts == map[] then 0
    else
      var k :| k in counts;
      counts[k] + Sum(counts - {k})
  }

  lemma {:induction false} SumWithout(counts: map<string, nat>, k: string)
    requires k in counts
    ensures Sum(counts) == counts[k] + Sum(counts - {k})
    decreases |counts|
  {
    var first :| first in counts && Sum(counts) == counts[first] + Sum(counts - {first});
    if first != k {
      SumWithout(counts - {first}, k);
      SumWithout(counts - {k}, first);
      assert counts - {first} - {k} == counts - {k} - {first};
    }
  }

  lemma SumOfIncrement(counts: map<string, nat>, name: string)
    ensures Sum(Increment(counts, name)) == Sum(counts) + 1
  {
    var counts' := Increment(counts, name);
    SumWithout(counts', name);
    if name in counts {
      SumWithout(counts, name);
      assert counts' - {name} == counts - {name};
    } else {
      assert counts' - {name} == counts;
    }
  }

  ghost predicate Accounted(st: State, l: Ledger) {
    && st.startedIds == l.seen && l.tools <= l.seen
    && st.toolCalls == |l.tools| == Sum(st.toolCounts)
  }

  /** Chunk numbers count from zero without gaps, and only the last may be final. */
  ghost predicate Numbered(chunks: seq<Chunk>, ended: bool) {
    && (forall i :: 0 <= i < |chunks| ==> chunks[i].sequence == i)
    && (forall i :: 0 <= i < |chunks| && chunks[i].isFinal ==> ended && i == |chunks| - 1)
  }

  lemma StartKeepsAccounts(c: Session, st: State, item: Item, l: Ledger)
    requires Accounted(st, l) && item.id.OrEmpty() != "" && Numbered(st.chunks, false)
    ensures var id := item.id.OrEmpty();
            var l' := if id in l.seen then l
                      else Ledger(l.seen + {id}, if item.kind.Tool? then l.tools + {id} else l.tools);
            var st' := HandleStarted(c, st, item);
            Accounted(st', l') && Numbered(st'.chunks, false)
  {
    if item.kind.Tool? {
      SumOfIncrement(st.toolCounts, ToolName(item));
    }
  }

  /** Only the first start of an item touches the tool counters. */
  lemma OnlyStartsCount(c: Session, st: State, active: Active, f: Frame, now: Instant)
    requires !StartsItem(c, st.turnId, f)
    ensures var st' := Handle(c, st, active, f, now).state;
            st'.startedIds == st.startedIds && st'.toolCalls == st.toolCalls && st'.toolCounts == st.toolCounts
  {
  }

  lemma EmitNumbers(st: State, text: string, isFinal: bool)
    requires Numbered(st.chunks, false)
    ensures Numbered(st.Emit(text, isFinal).chunks, isFinal)
  {
  }

  lemma StartedNumbers(c: Session, st: State, item: Item)
    requires Numbered(st.chunks, false)
    ensures Numbered(HandleStarted(c, st, item).chunks, false)
  {
  }

  lemma CompletedNumbers(c: Session, st: State, active: Active, f: Frame, now: Instant)
    requires Numbered(st.chunks, false)
    ensures var v := HandleTurnCompleted(c, st, active, f, now);
            Numbered(v.state.chunks, v.end.Some?)
  {
    EmitNumbers(st, c.render(c.scrub(st.content), st.toolCalls, st.toolCounts), true);
  }

  lemma HandleNumbersChunks(c: Session, st: State, active: Active, f: Frame, now: Instant)
    requires Numbered(st.chunks, false)
    ensures var v := Handle(c, st, active, f, now);
            Numbered(v.state.chunks, v.end.Some?)
  {
    if f.verb.ItemStarted? && f.item.Some? {
      StartedNumbers(c, st.(denials := 0), f.item.value);
    } else if f.verb.TurnCompleted? {
      CompletedNumbers(c, st, active, f, now);
    } else if f.verb.AgentDelta? {
      if f.delta.Str? {
        var st1 := st.(content := st.content + f.delta.s);
        EmitNumbers(st1, st1.content, false);
      }
    } else {
      assert Handle(c, st, active, f, now).state.chunks == st.chunks;
    }
  }

  lemma HandleKeepsAccounts(c: Session, st: State, active: Active, f: Frame, now: Instant, l: Ledger)
    requires Accounted(st, l) && Numbered(st.chunks, false)
    ensures var v := Handle(c, st, active, f, now);
            Accounted(v.state, Record(c, st.turnId, l, f)) && Numbered(v.state.chunks, v.end.Some?)
  {
    HandleNumbersChunks(c, st, active, f, now);
    if StartsItem(c, st.turnId, f) {
      StartKeepsAccounts(c, st.(denials := 0), f.item.value, l);
      assert Handle(c, st, active, f, now).state == HandleStarted(c, st.(denials := 0), f.item.value);
    } else {
      OnlyStartsCount(c, st, active, f, now);
    }
  }

  /** A pass that brings nothing to the handler leaves the counters alone; only the drain after
      the deadline may add a chunk, and that one ends the turn. */
  lemma OtherPass(c: Session, st: State, active: Active, p: Pass)
    requires !ReachesHandler(c, st, p) && Numbered(st.chunks, false)
    ensures var v := Iterate(c, st, active, p);
            && v.state.startedIds == st.startedIds && v.state.toolCalls == st.toolCalls && v.state.toolCounts == st.toolCounts
            && v.state.turnId == st.turnId
            && Numbered(v.state.chunks, v.end.Some?)
  {
    if HeadCheck(c, st, p.headAt) == Some(DeadlineExceeded) {
      DrainPass(c, st, active, p.drain);
    }
  }

  lemma DrainPass(c: Session, st: State, active: Active, d: Drain)
    requires Numbered(st.chunks, false)
    ensures var v := AfterDeadline(c, st, active, d);
            && v.end.Some?
            && v.state.startedIds == st.startedIds && v.state.toolCalls == st.toolCalls && v.state.toolCounts == st.toolCounts
            && v.state.turnId == st.turnId
            && Numbered(v.state.chunks, true)
  {
    EmitNumbers(st, c.render(c.scrub(d.content), st.toolCalls, st.toolCounts), true);
  }

  /** The frames that reach the handler before the turn ends. */
  function Taken(c: Session, st: State, active: Active, passes: seq<Pass>): seq<Arrival>
    decreases |passes|
  {
    if passes == [] then []
    else
      var p, v := passes[0], Iterate(c, st, active, passes[0]);
      (if ReachesHandler(c, st, p) then [Arrival(p.read.frame, p.readAt)] else [])
      + if v.end.Some? then [] else Taken(c, v.state, v.active, passes[1..])
  }

  lemma PassKeepsAccounts(c: Session, st: State, active: Active, p: Pass, l: Ledger)
    requires Accounted(st, l) && Numbered(st.chunks, false)
    ensures var v := Iterate(c, st, active, p);
            var reached := ReachesHandler(c, st, p);
            && Accounted(v.state, if reached then Record(c, st.turnId, l, p.read.frame) else l)
            && Numbered(v.state.chunks, v.end.Some?)
            && (v.end.None? ==> v.state.turnId == if reached then Acknowledged(st.turnId, p.read.frame) else st.turnId)
  {
    if ReachesHandler(c, st, p) {
      var st1 := At(st, p.readAt);
      assert Accounted(st1, l) && Iterate(c, st, active, p) == Handle(c, st1, active, p.read.frame, p.readAt);
      HandleKeepsAccounts(c, st1, active, p.read.frame, p.readAt, l);
      HandleKeepsTurnId(c, st1, active, p.read.frame, p.readAt);
    } else {
      OtherPass(c, st, active, p);
    }
  }

  lemma RecordFirst(c: Session, known: Option<string>, l: Ledger, first: Arrival, rest: seq<Arrival>)
    ensures RecordAll(c, known, l, [first] + rest)
            == RecordAll(c, Acknowledged(known, first.frame), Record(c, known, l, first.frame), rest)
  {
    assert ([first] + rest)[1..] == rest;
  }

  lemma {:induction false} LoopKeepsAccounts(c: Session, st: State, active: Active, passes: seq<Pass>, l: Ledger)
    requires Accounted(st, l) && Numbered(st.chunks, false)
    ensures var v := RunLoop(c, st, active, passes);
            && Accounted(v.state, RecordAll(c, st.turnId, l, Taken(c, st, active, passes)))
            && Numbered(v.state.chunks, v.end.Some?)
    decreases |passes|
  {
    if passes != [] {
      var p, v := passes[0], Iterate(c, st, active, passes[0]);
      PassKeepsAccounts(c, st, active, p, l);
      var rest := if v.end.Some? then [] else Taken(c, v.state, v.active, passes[1..]);
      if ReachesHandler(c, st, p) {
        var l1 := Record(c, st.turnId, l, p.read.frame);
        RecordFirst(c, st.turnId, l, Arrival(p.read.frame, p.readAt), rest);
        if v.end.None? {
          LoopKeepsAccounts(c, v.state, v.active, passes[1..], l1);
        }
      } else {
        assert Taken(c, st, active, passes) == rest;
        if v.end.None? {
          LoopKeepsAccounts(c, v.state, v.active, passes[1..], l);
        }
      }
    }
  }

  /** After every run of the loop, timers and drain included, the tool total is the sum of the
      per-tool counts and the number of distinct item ids whose first start was a tool, so replays
      add nothing; and the chunks are numbered from zero without gaps, with at most one final
      one, the last. */
  lemma ToolAndChunkAccounting(c: Session, active: Active, passes: seq<Pass>, submittedAt: Instant, id: string)
    ensures var st0 := Initial(submittedAt);
            var v := RunLoop(c, st0, active, passes);
            var taken := Taken(c, st0, active, passes);
            var tools := RecordAll(c, None, Ledger({}, {}), taken).tools;
            && v.state.toolCalls == Sum(v.state.toolCounts) == |tools|
            && (id in tools <==> exists i: nat :: FirstStartIsTool(c, None, taken, i, id))
            && Numbered(v.state.chunks, v.end.Some?)
  {
    var st0, l0 := Initial(submittedAt), Ledger({}, {});
    LoopKeepsAccounts(c, st0, active, passes, l0);
    LedgerMeaning(c, None, l0, Taken(c, st0, active, passes), id);
  }
}
